/** The assembly simulates the three-address machine: every step, every run. */
module LoweringCorrect {
  import opened Words
  import opened Source
  import opened Ir
  import opened TempFlow
  import opened Runs
  import opened X86
  import opened Lowering
  import opened ObjectCode
  import opened Frames
  import opened XRuns

  /** What the lowering needs of its input. Every frame holds its slots. */
  ghost predicate Lowerable(P: IrProgram) {
    && Structured(P.code) && JumpsLocal(P.code) && ParamRuns(P.code)
    && (forall f :: IEnter(f) in P.code ==>
          HasMethod(P.code, f) && f in P.sigs && !P.sigs[f].isExtern && FrameFits(P, f))
  }

  // ----- the relation -----

  /** The outermost caller: its stack pointer after the return, its rbp, the return address, and its
      memory. */
  datatype Base = Base(top: int, rbp: int, ret: int, mem: Memory)

  /** Every defined cell of the store that has a slot is in it. */
  ghost predicate Holds(m: seq<Key>, s: Store, B: int, mem: Memory) {
    forall n :: n in s && KeyOf(n) in m ==> Get(mem, B + SlotOf(m, KeyOf(n))) == Some(s[n] as int)
  }

  ghost predicate SameAbove(mem: Memory, mem': Memory, lo: int) {
    forall a :: a >= lo ==> Get(mem', a) == Get(mem, a)
  }

  /** The stack pointer of f's frame when n arguments have been set. */
  function RspOf(P: IrProgram, f: string, B: int, n: nat): int
    requires IEnter(f) in P.code
  {
    B - Reserved(P, f) - 8 * StackArgs(n)
  }

  /** How many arguments the call instruction before pc has on the stack. */
  function StackedBy(P: IrProgram, pc: nat): nat {
    if 0 < pc <= |P.code| && P.code[pc - 1].ICall? && P.code[pc - 1].f in P.sigs
    then StackArgs(|P.sigs[P.code[pc - 1].f].params|) else 0
  }

  /** How many arguments of suspended calls lie on the stack. */
  function Stacked(P: IrProgram, stk: Stack): nat {
    match stk
    case NoFrame => 0
    case Push(fr, rest) => StackedBy(P, fr.pc) + Stacked(P, rest)
  }

  /** Frame bases are multiples of 8; each argument on the stack below one shifts it by 8 against the
      outermost caller's stack pointer, and nothing else does, modulo 16. */
  ghost predicate Aligned(P: IrProgram, base: Base, stk: Stack, B: int) {
    B % 8 == 0 && (base.top - B) % 16 == 8 * (Stacked(P, stk) % 2)
  }

  ghost predicate Suspended(P: IrProgram, fr: Frame) {
    && 0 < fr.pc <= |P.code| && P.code[fr.pc - 1].ICall? && P.code[fr.pc - 1].reg == fr.reg
    && Owns(P.code, fr.f, fr.pc - 1)
    && StackedBy(P, fr.pc) == StackArgs(ParamCount(P.code, fr.pc - 1))
  }

  /** The frames above base B: saved rbp, return address, and each caller's cells. */
  ghost predicate StackMatch(P: IrProgram, base: Base, stk: Stack, B: int, mem: Memory)
    decreases stk
  {
    match stk
    case NoFrame =>
      B % 8 == 0 && B + 16 == base.top && Get(mem, B) == Some(base.rbp) && Get(mem, B + 8) == Some(base.ret)
    case Push(fr, rest) =>
      && Suspended(P, fr) && B in mem && Get(mem, B + 8) == Some(Address(P, fr.pc - 1) + 1)
      && B + 16 == RspOf(P, fr.f, mem[B], ParamCount(P.code, fr.pc - 1))
      && Holds(Final(P, fr.f), fr.store, mem[B], mem)
      && StackMatch(P, base, rest, mem[B], mem)
  }

  /** Where argument i is when it has been set: its register, or the cell it was pushed to. */
  function ArgAt(P: IrProgram, f: string, B: int, x: XState, i: nat): Option<int>
    requires IEnter(f) in P.code
  {
    if i < 6 then Get(x.regs, ARG_REGS[i]) else Get(x.mem, B - Reserved(P, f) - 8 * (i - 5))
  }

  ghost predicate ArgsSet(P: IrProgram, f: string, B: int, x: XState, pend: seq<Word>)
    requires IEnter(f) in P.code
  {
    forall i :: 0 <= i < |pend| ==> ArgAt(P, f, B, x, i) == Some(pend[i] as int)
  }

  /** In method f at instruction pc: the frame is laid out, the slots hold the store, the arguments set
      so far are in place, and nothing above the outermost frame has changed. */
  ghost predicate MatchRunning(P: IrProgram, base: Base, f: string, pc: nat, s: Store, pend: seq<Word>, stk: Stack,
                               tr: Trace, x: XState)
  {
    && Owns(P.code, f, pc) && x.pc == Address(P, pc) && x.tr == tr
    && RBP in x.regs && RSP in x.regs
    && |pend| == ParamCount(P.code, pc) && x.regs[RSP] == RspOf(P, f, x.regs[RBP], |pend|)
    && Holds(Final(P, f), s, x.regs[RBP], x.mem)
    && StackMatch(P, base, stk, x.regs[RBP], x.mem)
    && ArgsSet(P, f, x.regs[RBP], x, pend)
    && SameAbove(base.mem, x.mem, base.top)
  }

  /** Back in the outermost caller, with the result in rax. */
  ghost predicate MatchHalted(base: Base, v: Option<Word>, tr: Trace, x: XState) {
    && x.pc == base.ret && x.tr == tr && (v.Some? ==> Get(x.regs, RAX) == Some(v.value as int))
    && Get(x.regs, RSP) == Some(base.top) && Get(x.regs, RBP) == Some(base.rbp)
    && SameAbove(base.mem, x.mem, base.top)
  }

  ghost predicate Match(P: IrProgram, base: Base, st: State, x: XState) {
    match st
    case Running(f, pc, s, pend, stk, tr) => MatchRunning(P, base, f, pc, s, pend, stk, tr, x)
    case Halted(v, tr) => MatchHalted(base, v, tr, x)
  }

  // ----- what a call needs -----

  /** The arguments in the order the calling convention reads them: those beyond the sixth were pushed
      first to last, so they are found last to first. */
  function Received(vs: seq<Word>): (r: seq<Word>)
    ensures |r| == |vs|
  {
    seq(|vs|, i requires 0 <= i < |vs| => if i < 6 then vs[i] else vs[|vs| + 5 - i])
  }

  /** Every argument vector of a given length arrives in order exactly when it has at most seven. */
  lemma {:induction false} ReceivedExactly(n: nat)
    ensures (forall vs: seq<Word> :: |vs| == n ==> Received(vs) == vs) <==> n <= 7
  {
    if n > 7 {
      var vs: seq<Word> := seq(n, i requires 0 <= i < n => if i == 6 then 1 else 0);
      assert Received(vs)[6] == vs[n - 1] == 0 && vs[6] == 1;
    }
  }

  /** How many arguments lie on the stack, those of suspended calls included. */
  function OnStack(P: IrProgram, st: State): nat
    requires st.Running?
  {
    Stacked(P, st.stack) + StackArgs(|st.pend|)
  }

  /** st is about to make a call that has a meaning. */
  predicate AtCallOf(P: IrProgram, st: State) {
    && st.Running? && st.pc < |P.code| && P.code[st.pc].ICall? && P.code[st.pc].f in P.sigs
    && |P.sigs[P.code[st.pc].f].params| == |st.pend| && Step(P, st).Some?
  }

  /** A call goes through as meant when its arguments are read in the order they were given, and, if it
      leaves the program, when rsp is a multiple of 16. The outermost caller's stack pointer is top. */
  predicate CallArrives(P: IrProgram, st: State, top: int) {
    AtCallOf(P, st) ==>
      && Received(st.pend) == st.pend
      && (P.sigs[P.code[st.pc].f].isExtern ==> (top - 8 * OnStack(P, st)) % 16 == 0)
  }

  /** Every call a run from st reaches does. */
  ghost predicate CallsArrive(P: IrProgram, st: State, top: int) {
    forall s :: Reaches(Machine(P), st, s) ==> CallArrives(P, s, top)
  }

  // ----- memory -----

  lemma {:induction false} HoldsWrite(m: seq<Key>, s: Store, B: int, mem: Memory, d: Name, w: Option<Word>,
      v: Option<int>)
    requires Holds(m, s, B, mem) && KeyOf(d) in m && (w.Some? ==> v == Some(w.value as int))
    ensures Holds(m, Set(s, d, w), B, Set(mem, B + SlotOf(m, KeyOf(d)), v))
    ensures SameAbove(mem, Set(mem, B + SlotOf(m, KeyOf(d)), v), B)
    ensures SlotOf(m, KeyOf(d)) % 8 == 0
  {
    hide SlotOf;
    var s' := Set(s, d, w);
    SlotsApart(m, KeyOf(d), KeyOf(d));
    forall n | n in s' && KeyOf(n) in m
      ensures Get(Set(mem, B + SlotOf(m, KeyOf(d)), v), B + SlotOf(m, KeyOf(n))) == Some(s'[n] as int)
    {
      assert Get(s', n) == Some(s'[n]);
      SlotsApart(m, KeyOf(n), KeyOf(d));
    }
  }

  /** A frame's cells survive any change below them. */
  lemma {:induction false} HoldsKept(P: IrProgram, f: string, s: Store, B: int, mem: Memory, mem': Memory)
    requires Structured(P.code) && HasMethod(P.code, f) && FrameFits(P, f)
    requires Holds(Final(P, f), s, B, mem) && SameAbove(mem, mem', B - Reserved(P, f))
    ensures Holds(Final(P, f), s, B, mem')
  {
    hide Final, Reserved, SlotOf, Structured;
    forall n | n in s && KeyOf(n) in Final(P, f)
      ensures Get(mem', B + SlotOf(Final(P, f), KeyOf(n))) == Some(s[n] as int)
    {
      SlotsApart(Final(P, f), KeyOf(n), KeyOf(n));
    }
  }

  lemma {:induction false} StackKept(P: IrProgram, base: Base, stk: Stack, B: int, mem: Memory, mem': Memory)
    requires Lowerable(P) && StackMatch(P, base, stk, B, mem) && SameAbove(mem, mem', B)
    ensures StackMatch(P, base, stk, B, mem')
    decreases stk
  {
    hide Lowerable, HasMethod, Final, Reserved, Holds, Aligned, Within, ParamCount, Address, SameAbove;
    CellsKept(mem, mem', B);
    if stk.Push? {
      CallerKept(P, stk.top, B, mem, mem');
      StackKept(P, base, stk.rest, mem[B], mem, mem');
    }
  }

  lemma {:induction false} CellsKept(mem: Memory, mem': Memory, B: int)
    requires SameAbove(mem, mem', B)
    ensures Get(mem', B) == Get(mem, B) && Get(mem', B + 8) == Get(mem, B + 8)
    ensures forall lo :: lo >= B ==> SameAbove(mem, mem', lo)
  {
  }

  lemma {:induction false} CallerKept(P: IrProgram, fr: Frame, B: int, mem: Memory, mem': Memory)
    requires Lowerable(P) && Suspended(P, fr) && B in mem && SameAbove(mem, mem', B)
    requires B + 16 == RspOf(P, fr.f, mem[B], ParamCount(P.code, fr.pc - 1))
    requires Holds(Final(P, fr.f), fr.store, mem[B], mem)
    ensures Holds(Final(P, fr.f), fr.store, mem[B], mem') && mem[B] >= B
  {
    hide Structured, JumpsLocal, ParamRuns, HasMethod, Final, Reserved, Holds, Within, ParamCount, SameAbove;
    CellsKept(mem, mem', B);
    HoldsKept(P, fr.f, fr.store, mem[B], mem, mem');
  }

  lemma {:induction false} StackBelow(P: IrProgram, base: Base, stk: Stack, B: int, mem: Memory)
    requires StackMatch(P, base, stk, B, mem)
    ensures B + 16 <= base.top && Aligned(P, base, stk, B)
    decreases stk
  {
    hide Owns, Final, Reserved, Holds, ParamCount, Address, RspOf, Suspended, Aligned, HasMethod;
    if stk.Push? {
      StackBelow(P, base, stk.rest, mem[B], mem);
      FrameBelow(P, base, stk.top, stk.rest, mem[B], B);
    } else {
      Outermost(P, base, B);
    }
  }

  lemma {:induction false} Outermost(P: IrProgram, base: Base, B: int)
    requires B % 8 == 0 && B + 16 == base.top
    ensures Aligned(P, base, NoFrame, B)
  {
  }

  /** One suspended frame, from its base to the base of the frame it called. */
  lemma {:induction false} FrameBelow(P: IrProgram, base: Base, fr: Frame, rest: Stack, B: int, B': int)
    requires Suspended(P, fr) && Aligned(P, base, rest, B)
    requires B' + 16 == RspOf(P, fr.f, B, ParamCount(P.code, fr.pc - 1))
    ensures B' + 16 <= B && Aligned(P, base, Push(fr, rest), B')
  {
    hide Reserved, ParamCount, Within, StackedBy, StackArgs;
    NextBase(base.top, B, Reserved(P, fr.f), StackArgs(ParamCount(P.code, fr.pc - 1)), Stacked(P, rest));
  }

  /** The base of a callee's frame, with s arguments of its call on the stack. */
  lemma {:induction false} NextBase(top: int, B: int, size: nat, s: nat, below: nat)
    requires B % 8 == 0 && size % 16 == 0 && (top - B) % 16 == 8 * (below % 2)
    ensures (B - size - 8 * s - 16) % 8 == 0
    ensures (top - (B - size - 8 * s - 16)) % 16 == 8 * ((s + below) % 2)
  {
    assert B - size - 8 * s - 16 == 8 * (B / 8 - 2 * (size / 16) - s - 2);
    assert top - (B - size - 8 * s - 16) == (top - B) + 16 * (size / 16 + 1) + 8 * s;
    Halves(top - B, size / 16 + 1, s, below);
  }

  lemma {:induction false} Halves(d: int, k: int, s: nat, below: nat)
    requires d % 16 == 8 * (below % 2)
    ensures (d + 16 * k + 8 * s) % 16 == 8 * ((s + below) % 2)
  {
    assert d + 16 * k + 8 * s == 16 * (d / 16 + k + s / 2) + 8 * (below % 2 + s % 2);
  }

  lemma {:induction false} AboveTrans(a: Memory, b: Memory, c: Memory, lo: int, lo': int)
    requires SameAbove(a, b, lo) && SameAbove(b, c, lo') && lo' <= lo
    ensures SameAbove(a, c, lo)
  {
  }

  lemma {:induction false} CodeAt(P: IrProgram, i: nat)
    requires i < |P.code|
    ensures XAt(Lower(P), Address(P, i), Emitted(P, i))
    ensures Address(P, i + 1) == Address(P, i) + |Emitted(P, i)|
  {
    hide Assembly, Emitted;
    Placed(P, i, |P.code|);
  }

  /** What is known of a matched state whose next instruction is inside a method. */
  lemma {:induction false} AtInstruction(P: IrProgram, f: string, pc: nat)
    requires Lowerable(P) && Owns(P.code, f, pc) && !P.code[pc].ILeave?
    ensures var i := P.code[pc];
            && XAt(Lower(P), Address(P, pc), InstrCode(i, Final(P, f), f, ParamCount(P.code, pc), 0, []))
            && Address(P, pc + 1)
               == Address(P, pc) + |InstrCode(i, Final(P, f), f, ParamCount(P.code, pc), 0, [])|
            && (forall n :: n in Operands(i) ==> KeyOf(n) in Final(P, f))
            && (!i.IParam? && !i.ICall? ==> ParamCount(P.code, pc) == 0)
            && Owns(P.code, f, pc + 1) && HasMethod(P.code, f) && FrameFits(P, f)
            && ParamCount(P.code, pc + 1)
               == if i.IParam? then ParamCount(P.code, pc) + 1 else if i.ICall? then 0 else ParamCount(P.code, pc)
  {
    hide Structured, JumpsLocal, Final, Reserved, Within, Emitted, InstrCode, XAt, Address, Operands;
    OwnsNext(P.code, f, pc);
    EmittedFinal(P, f, pc);
    CodeAt(P, pc);
  }

  /** After an instruction that stores into d's slot. */
  lemma {:induction false} AfterWrite(P: IrProgram, base: Base, f: string, pc: nat, s: Store, stk: Stack, tr: Trace,
                                      x: XState, x': XState, n: nat, d: Name, w: Option<Word>, v: Option<int>)
    requires Lowerable(P) && MatchRunning(P, base, f, pc, s, [], stk, tr, x)
    requires Owns(P.code, f, pc + 1) && ParamCount(P.code, pc + 1) == 0 && Address(P, pc + 1) == Address(P, pc) + n
    requires KeyOf(d) in Final(P, f) && (w.Some? ==> v == Some(w.value as int))
    requires Stored(x, x', n, SlotOf(Final(P, f), KeyOf(d)), v)
    ensures MatchRunning(P, base, f, pc + 1, Set(s, d, w), [], stk, tr, x')
  {
    hide Lowerable, Holds, SlotOf, StackMatch, SameAbove, Final, Reserved, Within, HasMethod, Address, ParamCount;
    var B := x.regs[RBP];
    HoldsWrite(Final(P, f), s, B, x.mem, d, w, v);
    StackKept(P, base, stk, B, x.mem, x'.mem);
    StackBelow(P, base, stk, B, x.mem);
    AboveTrans(base.mem, x.mem, x'.mem, base.top, B);
  }

  /** A matched frame is addressable. */
  lemma {:induction false} FrameReady(P: IrProgram, base: Base, f: string, pc: nat, s: Store, pend: seq<Word>,
                                      stk: Stack, tr: Trace, x: XState)
    requires MatchRunning(P, base, f, pc, s, pend, stk, tr, x)
    ensures Framed(x)
  {
    hide Holds, SlotOf, SameAbove, Final, Reserved, Owns, Address, ParamCount, ArgsSet;
    StackBelow(P, base, stk, x.regs[RBP], x.mem);
  }

  lemma {:induction false} SlotReady(P: IrProgram, base: Base, f: string, pc: nat, s: Store, pend: seq<Word>,
                                     stk: Stack, tr: Trace, x: XState, n: Name)
    requires MatchRunning(P, base, f, pc, s, pend, stk, tr, x) && KeyOf(n) in Final(P, f)
    ensures Offset(SlotOf(Final(P, f), KeyOf(n)))
    ensures n in s ==> Cell(x, SlotOf(Final(P, f), KeyOf(n))) == Some(s[n] as int)
  {
    hide StackMatch, SlotOf, SameAbove, Final, Reserved, Within, HasMethod, Address, ParamCount, ArgsSet;
    SlotsApart(Final(P, f), KeyOf(n), KeyOf(n));
  }

  // ----- one step -----

  lemma {:induction false} BinResult(P: IrProgram, st: State)
    requires st.Running? && st.pc < |P.code| && Step(P, st).Some? && P.code[st.pc].IBin?
    ensures var i := P.code[st.pc];
            && i.var1 in st.store && i.var2 in st.store
            && IrApply(i.op, st.store[i.var1], st.store[i.var2]).Some?
            && Step(P, st).value
               == st.(pc := st.pc + 1,
                      store := Set(st.store, i.reg, IrApply(i.op, st.store[i.var1], st.store[i.var2])))
  {
    hide IrApply;
  }

  /** The facts every instruction's proof starts from. */
  lemma {:induction false} MatchedAt(P: IrProgram, base: Base, st: State, x: XState)
    requires Lowerable(P) && Match(P, base, st, x) && st.Running? && st.pc < |P.code| && !P.code[st.pc].ILeave?
    ensures var i, f, k := P.code[st.pc], st.f, ParamCount(P.code, st.pc);
            && HasMethod(P.code, f) && Owns(P.code, f, st.pc) && Owns(P.code, f, st.pc + 1)
            && Framed(x) && x.pc == Address(P, st.pc)
            && XAt(Lower(P), x.pc, InstrCode(i, Final(P, f), f, k, 0, []))
            && Address(P, st.pc + 1) == x.pc + |InstrCode(i, Final(P, f), f, k, 0, [])|
            && (forall n :: n in Operands(i) ==> KeyOf(n) in Final(P, f))
            && k == |st.pend| && (!i.IParam? && !i.ICall? ==> st.pend == [])
            && ParamCount(P.code, st.pc + 1) == (if i.IParam? then k + 1 else if i.ICall? then 0 else k)
            && MatchRunning(P, base, f, st.pc, st.store, st.pend, st.stack, st.tr, x)
  {
    hide Lowerable, Reaches, Holds, SlotOf, StackMatch, SameAbove, Final, Reserved, Address, ParamCount, ArgsSet,
         InstrCode, XAt, Framed, Operands;
    AtInstruction(P, st.f, st.pc);
    FrameReady(P, base, st.f, st.pc, st.store, st.pend, st.stack, st.tr, x);
  }

  lemma {:induction false} MatchedSlot(P: IrProgram, base: Base, st: State, x: XState, n: Name)
    requires st.Running? && Match(P, base, st, x) && Owns(P.code, st.f, st.pc) && KeyOf(n) in Final(P, st.f)
    ensures Offset(SlotOf(Final(P, st.f), KeyOf(n)))
    ensures n in st.store ==> Cell(x, SlotOf(Final(P, st.f), KeyOf(n))) == Some(st.store[n] as int)
  {
    hide Lowerable, MatchRunning, SlotOf, Final, Owns, Cell, Offset;
    SlotReady(P, base, st.f, st.pc, st.store, st.pend, st.stack, st.tr, x, n);
  }

  // ----- instructions that compute into a cell -----

  /** Every operand of i has an addressable slot, which holds its value if it has one. */
  ghost predicate SlotsReady(x: XState, m: seq<Key>, s: Store, i: Instr) {
    forall n :: n in Operands(i) ==> SlotReadyFor(x, m, s, n)
  }

  ghost predicate SlotReadyFor(x: XState, m: seq<Key>, s: Store, n: Name) {
    && KeyOf(n) in m && Offset(SlotOf(m, KeyOf(n)))
    && (n in s ==> Cell(x, SlotOf(m, KeyOf(n))) == Some(s[n] as int))
  }

  lemma {:induction false} MatchedSlots(P: IrProgram, base: Base, st: State, x: XState)
    requires Lowerable(P) && Match(P, base, st, x) && st.Running? && st.pc < |P.code| && !P.code[st.pc].ILeave?
    ensures HasMethod(P.code, st.f) && SlotsReady(x, Final(P, st.f), st.store, P.code[st.pc])
  {
    hide Lowerable, MatchRunning, SlotOf, Final, Owns, Cell, Offset, Operands, InstrCode, XAt, Framed, HasMethod, KeyOf;
    MatchedAt(P, base, st, x);
    forall n | n in Operands(P.code[st.pc])
      ensures SlotReadyFor(x, Final(P, st.f), st.store, n)
    {
      MatchedSlot(P, base, st, x, n);
    }
  }

  /** The code of i, with the slots ready, has stored v in i's result slot when it is done. */
  ghost predicate Ran(X: XProgram, x: XState, x': XState, m: seq<Key>, f: string, i: Instr, v: Option<int>)
    requires Writes(i).Some?
  {
    && Reaches(XMachine(X), x, x')
    && Stored(x, x', |InstrCode(i, m, f, 0, 0, [])|, SlotOf(m, KeyOf(Writes(i).value)), v)
  }

  lemma {:induction false} LoadValRuns(X: XProgram, x: XState, m: seq<Key>, f: string, s: Store,
      i: Instr) returns (x': XState)
    requires i.ILoadVal? && XAt(X, x.pc, InstrCode(i, m, f, 0, 0, [])) && Framed(x) && SlotsReady(x, m, s, i)
    ensures Ran(X, x, x', m, f, i, Some(i.v as int))
  {
    hide Reaches, SlotOf, Stored, XAt, KeyOf, Cell, Offset;
    OperandLists(i);
    assert SlotReadyFor(x, m, s, i.reg);
    x' := RunLoadImm(X, x, i.v, SlotOf(m, KeyOf(i.reg)));
  }

  lemma {:induction false} StoreRuns(X: XProgram, x: XState, m: seq<Key>, f: string, s: Store, i: Instr)
    returns (x': XState, v: Option<int>)
    requires i.IStore? && XAt(X, x.pc, InstrCode(i, m, f, 0, 0, [])) && Framed(x) && SlotsReady(x, m, s, i)
    ensures Ran(X, x, x', m, f, i, v)
    ensures OperandValue(s, i.src).Some? ==> v == Some(OperandValue(s, i.src).value as int)
  {
    hide Reaches, SlotOf, Stored, XAt, KeyOf, Offset;
    OperandLists(i);
    assert SlotReadyFor(x, m, s, i.reg);
    assert i.src.Loc? ==> SlotReadyFor(x, m, s, i.src.n);
    v := Read(x, OperandOpnd(m, i.src));
    x' := RunCopy(X, x, OperandOpnd(m, i.src), SlotOf(m, KeyOf(i.reg)));
  }

  lemma {:induction false} BinRuns(X: XProgram, x: XState, m: seq<Key>, f: string, s: Store,
      i: Instr) returns (x': XState)
    requires i.IBin? && XAt(X, x.pc, InstrCode(i, m, f, 0, 0, [])) && Framed(x) && SlotsReady(x, m, s, i)
    requires i.var1 in s && i.var2 in s && IrApply(i.op, s[i.var1], s[i.var2]).Some?
    ensures Ran(X, x, x', m, f, i, Some(IrApply(i.op, s[i.var1], s[i.var2]).value as int))
  {
    hide Reaches, SlotOf, Stored, XAt, KeyOf, Cell, Offset, IrApply, BinCode;
    OperandLists(i);
    assert SlotReadyFor(x, m, s, i.var1) && SlotReadyFor(x, m, s, i.var2) && SlotReadyFor(x, m, s, i.reg);
    x' := RunBinary(X, x, i.op, SlotOf(m, KeyOf(i.var1)), SlotOf(m, KeyOf(i.var2)), SlotOf(m, KeyOf(i.reg)),
                    s[i.var1], s[i.var2]);
  }

  lemma {:induction false} ShrRuns(X: XProgram, x: XState, m: seq<Key>, f: string, s: Store,
      i: Instr) returns (x': XState)
    requires i.IShr? && XAt(X, x.pc, InstrCode(i, m, f, 0, 0, [])) && Framed(x) && SlotsReady(x, m, s, i)
    requires i.var1 in s && i.k <= 30
    ensures Ran(X, x, x', m, f, i, Some(ShiftDivide(s[i.var1], i.k)))
  {
    hide Reaches, SlotOf, Stored, XAt, KeyOf, Cell, Offset, ShiftDivide, Bias;
    OperandLists(i);
    assert SlotReadyFor(x, m, s, i.var1) && SlotReadyFor(x, m, s, i.reg);
    x' := RunShift(X, x, SlotOf(m, KeyOf(i.var1)), i.k, SlotOf(m, KeyOf(i.reg)), s[i.var1]);
  }

  lemma {:induction false} UnRuns(X: XProgram, x: XState, m: seq<Key>, f: string, s: Store,
      i: Instr) returns (x': XState)
    requires i.IUn? && XAt(X, x.pc, InstrCode(i, m, f, 0, 0, [])) && Framed(x) && SlotsReady(x, m, s, i)
    requires i.var1 in s
    ensures Ran(X, x, x', m, f, i, Some(ApplyUn(i.uop, s[i.var1]) as int))
  {
    hide Reaches, SlotOf, Stored, XAt, KeyOf, Cell, Offset, ApplyUn;
    OperandLists(i);
    assert SlotReadyFor(x, m, s, i.var1) && SlotReadyFor(x, m, s, i.reg);
    if i.uop == Minus {
      x' := RunMinus(X, x, SlotOf(m, KeyOf(i.var1)), SlotOf(m, KeyOf(i.reg)), s[i.var1]);
    } else {
      x' := RunNot(X, x, SlotOf(m, KeyOf(i.var1)), SlotOf(m, KeyOf(i.reg)), s[i.var1]);
    }
  }

  lemma {:induction false} ResultOperand(i: Instr)
    requires Computes(i)
    ensures Writes(i).Some? && Writes(i).value in Operands(i) && !i.IParam? && !i.ICall? && !i.ILeave?
  {
    OperandLists(i);
  }

  /** After the code of such an instruction the states match again. */
  lemma {:induction false} DataMatches(P: IrProgram, base: Base, f: string, pc: nat, s: Store, stk: Stack, tr: Trace,
                                       i: Instr, d: Name, x: XState, x': XState, w: Option<Word>, v: Option<int>)
    requires Lowerable(P) && pc < |P.code| && P.code[pc] == i && Computes(i) && Writes(i) == Some(d)
        && HasMethod(P.code, f)
    requires MatchRunning(P, base, f, pc, s, [], stk, tr, x) && (w.Some? ==> v == Some(w.value as int))
    requires Ran(Lower(P), x, x', Final(P, f), f, i, v)
    ensures MatchRunning(P, base, f, pc + 1, Set(s, d, w), [], stk, tr, x')
  {
    ResultOperand(i);
    hide Lowerable, Reaches, MatchRunning, SlotOf, Final, Owns, Address, ParamCount, InstrCode, XAt, Framed, Stored,
         KeyOf, Operands, Writes, Computes, Lower, HasMethod, Set;
    RunningAt(P, base, f, pc, s, [], stk, tr, x);
    AtInstruction(P, f, pc);
    AfterWrite(P, base, f, pc, s, stk, tr, x, x', Address(P, pc + 1) - x.pc, d, w, v);
  }

  lemma {:induction false} RunningAt(P: IrProgram, base: Base, f: string, pc: nat, s: Store, pend: seq<Word>,
                                     stk: Stack, tr: Trace, x: XState)
    requires MatchRunning(P, base, f, pc, s, pend, stk, tr, x)
    ensures Owns(P.code, f, pc) && x.pc == Address(P, pc) && |pend| == ParamCount(P.code, pc)
  {
    hide Owns, Holds, StackMatch, SameAbove, Final, Reserved, Address, ParamCount, ArgsSet;
  }

  lemma {:induction false} DataReady(P: IrProgram, base: Base, st: State, x: XState)
    requires Lowerable(P) && Match(P, base, st, x) && st.Running? && st.pc < |P.code| && Computes(P.code[st.pc])
    ensures HasMethod(P.code, st.f) && SlotsReady(x, Final(P, st.f), st.store, P.code[st.pc]) && Framed(x)
    ensures XAt(Lower(P), x.pc, InstrCode(P.code[st.pc], Final(P, st.f), st.f, 0, 0, []))
    ensures st.pend == [] && MatchRunning(P, base, st.f, st.pc, st.store, [], st.stack, st.tr, x)
  {
    hide Lowerable, MatchRunning, SlotsReady, Final, InstrCode, XAt, Framed, Lower, Owns, HasMethod, Operands;
    MatchedAt(P, base, st, x);
    MatchedSlots(P, base, st, x);
  }

  lemma {:induction false} LoadValStep(P: IrProgram, base: Base, st: State, x: XState) returns (x': XState)
    requires Lowerable(P) && Match(P, base, st, x) && st.Running? && st.pc < |P.code| && Step(P, st).Some?
    requires P.code[st.pc].ILoadVal?
    ensures Reaches(XMachine(Lower(P)), x, x') && Match(P, base, Step(P, st).value, x')
  {
    hide Lowerable, Reaches, MatchRunning, Step, SlotsReady, Final, InstrCode, XAt, Stored, Framed, ShiftDivide,
         ApplyUn, IrApply, OperandValue, Lower, Owns, HasMethod, Operands;
    DataReady(P, base, st, x);
    var i, f, X, m, s := P.code[st.pc], st.f, Lower(P), Final(P, st.f), st.store;
    LoadValResult(P, st);
    x' := LoadValRuns(X, x, m, f, s, i);
    DataMatches(P, base, f, st.pc, s, st.stack, st.tr, i, i.reg, x, x', Some(i.v as Word), Some(i.v as int));
  }

  lemma {:induction false} StoreStep(P: IrProgram, base: Base, st: State, x: XState) returns (x': XState)
    requires Lowerable(P) && Match(P, base, st, x) && st.Running? && st.pc < |P.code| && Step(P, st).Some?
    requires P.code[st.pc].IStore?
    ensures Reaches(XMachine(Lower(P)), x, x') && Match(P, base, Step(P, st).value, x')
  {
    hide Lowerable, Reaches, MatchRunning, Step, SlotsReady, Final, InstrCode, XAt, Stored, Framed, ShiftDivide,
         ApplyUn, IrApply, OperandValue, Lower, Owns, HasMethod, Operands;
    DataReady(P, base, st, x);
    var i, f, X, m, s := P.code[st.pc], st.f, Lower(P), Final(P, st.f), st.store;
    StoreResult(P, st);
    var v;
    x', v := StoreRuns(X, x, m, f, s, i);
    DataMatches(P, base, f, st.pc, s, st.stack, st.tr, i, i.reg, x, x', OperandValue(s, i.src), v);
  }

  lemma {:induction false} BinStep(P: IrProgram, base: Base, st: State, x: XState) returns (x': XState)
    requires Lowerable(P) && Match(P, base, st, x) && st.Running? && st.pc < |P.code| && Step(P, st).Some?
    requires P.code[st.pc].IBin?
    ensures Reaches(XMachine(Lower(P)), x, x') && Match(P, base, Step(P, st).value, x')
  {
    hide Lowerable, Reaches, MatchRunning, Step, SlotsReady, Final, InstrCode, XAt, Stored, Framed, ShiftDivide,
         ApplyUn, IrApply, OperandValue, Lower, Owns, HasMethod, Operands;
    DataReady(P, base, st, x);
    var i, f, X, m, s := P.code[st.pc], st.f, Lower(P), Final(P, st.f), st.store;
    BinResult(P, st);
    x' := BinRuns(X, x, m, f, s, i);
    var w := IrApply(i.op, s[i.var1], s[i.var2]);
    DataMatches(P, base, f, st.pc, s, st.stack, st.tr, i, i.reg, x, x', w, Some(w.value as int));
  }

  lemma {:induction false} ShrStep(P: IrProgram, base: Base, st: State, x: XState) returns (x': XState)
    requires Lowerable(P) && Match(P, base, st, x) && st.Running? && st.pc < |P.code| && Step(P, st).Some?
    requires P.code[st.pc].IShr?
    ensures Reaches(XMachine(Lower(P)), x, x') && Match(P, base, Step(P, st).value, x')
  {
    hide Lowerable, Reaches, MatchRunning, Step, SlotsReady, Final, InstrCode, XAt, Stored, Framed, ShiftDivide,
         ApplyUn, IrApply, OperandValue, Lower, Owns, HasMethod, Operands;
    DataReady(P, base, st, x);
    var i, f, X, m, s := P.code[st.pc], st.f, Lower(P), Final(P, st.f), st.store;
    ShrResult(P, st);
    x' := ShrRuns(X, x, m, f, s, i);
    var w: Word := ShiftDivide(s[i.var1], i.k);
    DataMatches(P, base, f, st.pc, s, st.stack, st.tr, i, i.reg, x, x', Some(w), Some(w as int));
  }

  lemma {:induction false} UnStep(P: IrProgram, base: Base, st: State, x: XState) returns (x': XState)
    requires Lowerable(P) && Match(P, base, st, x) && st.Running? && st.pc < |P.code| && Step(P, st).Some?
    requires P.code[st.pc].IUn?
    ensures Reaches(XMachine(Lower(P)), x, x') && Match(P, base, Step(P, st).value, x')
  {
    hide Lowerable, Reaches, MatchRunning, Step, SlotsReady, Final, InstrCode, XAt, Stored, Framed, ShiftDivide,
         ApplyUn, IrApply, OperandValue, Lower, Owns, HasMethod, Operands;
    DataReady(P, base, st, x);
    var i, f, X, m, s := P.code[st.pc], st.f, Lower(P), Final(P, st.f), st.store;
    UnResult(P, st);
    x' := UnRuns(X, x, m, f, s, i);
    var w := ApplyUn(i.uop, s[i.var1]);
    DataMatches(P, base, f, st.pc, s, st.stack, st.tr, i, i.reg, x, x', Some(w), Some(w as int));
  }

  lemma {:induction false} DataStep(P: IrProgram, base: Base, st: State, x: XState) returns (x': XState)
    requires Lowerable(P) && Match(P, base, st, x) && st.Running? && st.pc < |P.code| && Step(P, st).Some?
    requires Computes(P.code[st.pc])
    ensures Reaches(XMachine(Lower(P)), x, x') && Match(P, base, Step(P, st).value, x')
  {
    hide Lowerable, Reaches, Match, Step;
    if P.code[st.pc].ILoadVal? {
      x' := LoadValStep(P, base, st, x);
    } else if P.code[st.pc].IStore? {
      x' := StoreStep(P, base, st, x);
    } else if P.code[st.pc].IBin? {
      x' := BinStep(P, base, st, x);
    } else if P.code[st.pc].IShr? {
      x' := ShrStep(P, base, st, x);
    } else {
      x' := UnStep(P, base, st, x);
    }
  }

  lemma {:induction false} LoadValResult(P: IrProgram, st: State)
    requires st.Running? && st.pc < |P.code| && P.code[st.pc].ILoadVal?
    ensures var i := P.code[st.pc];
            Step(P, st) == Some(st.(pc := st.pc + 1, store := Set(st.store, i.reg, Some(i.v as Word))))
  {
  }

  lemma {:induction false} StoreResult(P: IrProgram, st: State)
    requires st.Running? && st.pc < |P.code| && P.code[st.pc].IStore?
    ensures var i := P.code[st.pc];
            Step(P, st) == Some(st.(pc := st.pc + 1, store := Set(st.store, i.reg, OperandValue(st.store, i.src))))
  {
  }

  lemma {:induction false} ShiftFits(a: Word, k: nat)
    requires k <= 30
    ensures -TWO63 <= ShiftDivide(a, k) < TWO63
  {
    ShiftIsTruncDiv(a, k);
    Pow2Small(k);
    TruncDivFits(a, Pow2(k));
  }

  lemma {:induction false} ShrResult(P: IrProgram, st: State)
    requires st.Running? && st.pc < |P.code| && Step(P, st).Some? && P.code[st.pc].IShr?
    ensures var i := P.code[st.pc];
            && i.k <= 30 && i.var1 in st.store
            && -TWO63 <= ShiftDivide(st.store[i.var1], i.k) < TWO63
            && Step(P, st).value
               == st.(pc := st.pc + 1, store := Set(st.store, i.reg, Some(ShiftDivide(st.store[i.var1], i.k) as Word)))
  {
    hide ShiftDivide;
    var i := P.code[st.pc];
    ShiftFits(st.store[i.var1], i.k);
  }

  lemma {:induction false} UnResult(P: IrProgram, st: State)
    requires st.Running? && st.pc < |P.code| && Step(P, st).Some? && P.code[st.pc].IUn?
    ensures var i := P.code[st.pc];
            && i.var1 in st.store
            && Step(P, st).value
               == st.(pc := st.pc + 1, store := Set(st.store, i.reg, Some(ApplyUn(i.uop, st.store[i.var1]))))
  {
    hide ApplyUn;
  }

  // ----- jumps -----

  /** A state that differs only where the relation does not look. */
  lemma {:induction false} Elsewhere(P: IrProgram, base: Base, f: string, pc: nat, q: nat, s: Store, stk: Stack,
                                     tr: Trace, x: XState, x': XState)
    requires MatchRunning(P, base, f, pc, s, [], stk, tr, x) && Owns(P.code, f, q)
    requires x'.pc == Address(P, q) && x'.tr == x.tr && x'.mem == x.mem && ParamCount(P.code, q) == 0
    requires Get(x'.regs, RBP) == Get(x.regs, RBP) && Get(x'.regs, RSP) == Get(x.regs, RSP)
    ensures MatchRunning(P, base, f, q, s, [], stk, tr, x')
  {
    hide Owns, Holds, StackMatch, SameAbove, Final, Reserved, Address, ParamCount;
  }

  /** The assembly finds a numeric label where the three-address machine does, in the same method. */
  lemma {:induction false} Target(P: IrProgram, f: string, pc: nat, l: nat)
    requires Lowerable(P) && Owns(P.code, f, pc)
    requires (P.code[pc].IJmp? || P.code[pc].IJmpf?) && P.code[pc].l == l
    ensures IndexOf(P.code, ILabel(l)).Some?
    ensures var q := IndexOf(P.code, ILabel(l)).value;
            && Owns(P.code, f, q) && ParamCount(P.code, q) == 0
            && IndexOf(Lower(P).code, XLabel(LNum(l))) == Some(Address(P, q))
  {
    hide Assembly, Address, Within, HasMethod, ParamCount, FrameFits;
    assert JumpLocal(P.code, pc);
    var q := IndexOf(P.code, ILabel(l)).value;
    assert P.code[q] == ILabel(l);
    assert StructuredAt(P.code, q);
    FindLabel(P, LNum(l));
  }

  lemma {:induction false} JmpStep(P: IrProgram, base: Base, st: State, x: XState) returns (x': XState)
    requires Lowerable(P) && Match(P, base, st, x) && st.Running? && st.pc < |P.code| && Step(P, st).Some?
    requires P.code[st.pc].IJmp?
    ensures Reaches(XMachine(Lower(P)), x, x') && Match(P, base, Step(P, st).value, x')
  {
    hide Lowerable, Reaches, Holds, StackMatch, SameAbove, Final, Reserved, Owns, Address, ParamCount, ArgsSet,
         MatchRunning, Assembly;
    MatchedAt(P, base, st, x);
    var l := P.code[st.pc].l;
    Target(P, st.f, st.pc, l);
    var q := IndexOf(P.code, ILabel(l)).value;
    x' := x.(pc := Address(P, q));
    ReachSelf(XMachine(Lower(P)), x);
    XMore(Lower(P), x, x, x');
    Elsewhere(P, base, st.f, st.pc, q, st.store, st.stack, st.tr, x, x');
  }

  lemma {:induction false} JmpfStep(P: IrProgram, base: Base, st: State, x: XState) returns (x': XState)
    requires Lowerable(P) && Match(P, base, st, x) && st.Running? && st.pc < |P.code| && Step(P, st).Some?
    requires P.code[st.pc].IJmpf?
    ensures Reaches(XMachine(Lower(P)), x, x') && Match(P, base, Step(P, st).value, x')
  {
    hide Lowerable, Reaches, Holds, SlotOf, StackMatch, SameAbove, Final, Reserved, Owns, Address, ParamCount,
         ArgsSet, XAt, Framed, Cell, Offset, MatchRunning, Lower;
    MatchedAt(P, base, st, x);
    var i := P.code[st.pc];
    OperandLists(i);
    MatchedSlot(P, base, st, x, i.var1);
    Target(P, st.f, st.pc, i.l);
    var q := IndexOf(P.code, ILabel(i.l)).value;
    var a := st.store[i.var1];
    x' := RunJumpIfZero(Lower(P), x, SlotOf(Final(P, st.f), KeyOf(i.var1)), a, i.l, Address(P, q));
    Elsewhere(P, base, st.f, st.pc, if a != 0 then st.pc + 1 else q, st.store, st.stack, st.tr, x, x');
  }

  lemma {:induction false} PlainResult(P: IrProgram, st: State)
    requires st.Running? && st.pc < |P.code| && (P.code[st.pc].ILoad? || P.code[st.pc].ILabel?)
    ensures Step(P, st) == Some(st.(pc := st.pc + 1))
  {
  }

  lemma {:induction false} PlainStep(P: IrProgram, base: Base, st: State, x: XState) returns (x': XState)
    requires Lowerable(P) && Match(P, base, st, x) && st.Running? && st.pc < |P.code| && Step(P, st).Some?
    requires P.code[st.pc].ILoad? || P.code[st.pc].ILabel?
    ensures Reaches(XMachine(Lower(P)), x, x') && Match(P, base, Step(P, st).value, x')
  {
    hide Lowerable, Reaches, Holds, StackMatch, SameAbove, Final, Reserved, Owns, Address, ParamCount, ArgsSet,
         MatchRunning, Lower, Step;
    PlainResult(P, st);
    MatchedAt(P, base, st, x);
    ReachSelf(XMachine(Lower(P)), x);
    x' := x.(pc := Address(P, st.pc + 1));
    if P.code[st.pc].ILabel? {
      XNext(Lower(P), x, x, XLabel(LNum(P.code[st.pc].l)), x');
    }
    Elsewhere(P, base, st.f, st.pc, st.pc + 1, st.store, st.stack, st.tr, x, x');
  }

  // ----- parameters -----

  /** One more argument is in place, and everything else is as it was. */
  lemma {:induction false} OneMoreArg(P: IrProgram, base: Base, f: string, pc: nat, s: Store, pend: seq<Word>,
                                      stk: Stack, tr: Trace, x: XState, x': XState, v: Word)
    requires Lowerable(P) && MatchRunning(P, base, f, pc, s, pend, stk, tr, x) && Owns(P.code, f, pc + 1)
    requires ParamCount(P.code, pc + 1) == |pend| + 1 && x'.pc == Address(P, pc + 1) && x'.tr == x.tr
    requires RBP in x'.regs && RSP in x'.regs && x'.regs[RBP] == x.regs[RBP]
    requires x'.regs[RSP] == RspOf(P, f, x.regs[RBP], |pend| + 1)
    requires SameAbove(x.mem, x'.mem, x.regs[RBP] - Reserved(P, f))
    requires forall i :: 0 <= i <= |pend| ==>
      ArgAt(P, f, x.regs[RBP], x', i) == if i < |pend| then ArgAt(P, f, x.regs[RBP], x, i) else Some(v as int)
    ensures MatchRunning(P, base, f, pc + 1, s, pend + [v], stk, tr, x')
  {
    hide Holds, StackMatch, SameAbove, Final, Reserved, Address, ParamCount, Structured, ParamRuns, JumpsLocal,
         Within, ArgAt;
    var B := x.regs[RBP];
    HoldsKept(P, f, s, B, x.mem, x'.mem);
    AboveSelf(x.mem, B);
    AboveTrans(x.mem, x.mem, x'.mem, B, B - Reserved(P, f));
    StackKept(P, base, stk, B, x.mem, x'.mem);
    StackBelow(P, base, stk, B, x.mem);
    AboveTrans(base.mem, x.mem, x'.mem, base.top, B);
  }

  lemma {:induction false} AboveSelf(a: Memory, lo: int)
    ensures SameAbove(a, a, lo)
  {
  }

  lemma {:induction false} RegistersApart(i: nat, j: nat)
    requires i < 6 && j < 6 && i != j
    ensures ARG_REGS[i] != ARG_REGS[j] && ARG_REGS[i] != RBP && ARG_REGS[i] != RSP && ARG_REGS[i] != RAX
  {
  }

  lemma {:induction false} SetRegister(P: IrProgram, f: string, x: XState, n: nat, v: Word) returns (x': XState)
    requires IEnter(f) in P.code && n < 6 && RBP in x.regs && RSP in x.regs
    ensures x' == SetReg(x, ARG_REGS[n], Some(v as int))
    ensures RBP in x'.regs && RSP in x'.regs && x'.regs[RBP] == x.regs[RBP] && x'.regs[RSP] == x.regs[RSP]
    ensures forall i, B :: 0 <= i <= n ==>
      ArgAt(P, f, B, x', i) == if i < n then ArgAt(P, f, B, x, i) else Some(v as int)
  {
    hide Reserved;
    x' := SetReg(x, ARG_REGS[n], Some(v as int));
    RegistersApart(n, if n == 0 then 1 else 0);
    forall i, B | 0 <= i <= n
      ensures ArgAt(P, f, B, x', i) == if i < n then ArgAt(P, f, B, x, i) else Some(v as int)
    {
      if i < n {
        RegistersApart(i, n);
      }
    }
  }

  /** What the code of a PARAM does: argument n is v, the earlier ones are as they were. */
  ghost predicate ArgumentAdded(P: IrProgram, f: string, x: XState, x': XState, n: nat, v: Word)
    requires IEnter(f) in P.code
  {
    && RBP in x.regs && RBP in x'.regs && RSP in x'.regs && x'.pc == x.pc + 1 && x'.tr == x.tr
    && x'.regs[RBP] == x.regs[RBP] && x'.regs[RSP] == RspOf(P, f, x.regs[RBP], n + 1)
    && SameAbove(x.mem, x'.mem, x.regs[RBP] - Reserved(P, f))
    && forall i :: 0 <= i <= n ==>
         ArgAt(P, f, x.regs[RBP], x', i) == if i < n then ArgAt(P, f, x.regs[RBP], x, i) else Some(v as int)
  }

  lemma {:induction false} RspMoves(P: IrProgram, f: string, B: int, n: nat)
    requires IEnter(f) in P.code
    ensures RspOf(P, f, B, n + 1) == if n < 6 then RspOf(P, f, B, n) else RspOf(P, f, B, n) - 8
  {
    hide Reserved;
  }

  lemma {:induction false} RunRegisterArgument(P: IrProgram, f: string, x: XState, p: int, n: nat, v: Word)
    returns (x': XState)
    requires IEnter(f) in P.code && Framed(x) && Offset(p) && Cell(x, p) == Some(v as int) && n < 6
    requires XAt(Lower(P), x.pc, [XMov(Slot(p), R(ARG_REGS[n]))]) && x.regs[RSP] == RspOf(P, f, x.regs[RBP], n)
    ensures Reaches(XMachine(Lower(P)), x, x') && ArgumentAdded(P, f, x, x', n, v)
  {
    hide Reaches, Reserved, Lower, XAt, ArgAt, SameAbove, RspOf;
    ReachSelf(XMachine(Lower(P)), x);
    RspMoves(P, f, x.regs[RBP], n);
    FirstOf(Lower(P), x.pc, XMov(Slot(p), R(ARG_REGS[n])));
    x' := SetRegister(P, f, x, n, v);
    RegistersApart(n, if n == 0 then 1 else 0);
    XNext(Lower(P), x, x, XMov(Slot(p), R(ARG_REGS[n])), x');
    AboveSelf(x.mem, x.regs[RBP] - Reserved(P, f));
  }

  lemma {:induction false} RunPushedArgument(P: IrProgram, f: string, x: XState, p: int, n: nat, v: Word)
    returns (x': XState)
    requires IEnter(f) in P.code && Framed(x) && Offset(p) && Cell(x, p) == Some(v as int) && n >= 6
    requires XAt(Lower(P), x.pc, [XPush(Slot(p))]) && x.regs[RSP] == RspOf(P, f, x.regs[RBP], n)
    ensures Reaches(XMachine(Lower(P)), x, x') && ArgumentAdded(P, f, x, x', n, v)
  {
    hide Reaches, Reserved, Lower, XAt, ArgAt, SameAbove, RspOf;
    ReachSelf(XMachine(Lower(P)), x);
    RspMoves(P, f, x.regs[RBP], n);
    RspAligned(P, f, x.regs[RBP], n);
    FirstOf(Lower(P), x.pc, XPush(Slot(p)));
    var a := x.regs[RSP] - 8;
    x' := x.(regs := x.regs[RSP := a], mem := Set(x.mem, a, Some(v as int)), pc := x.pc + 1);
    XNext(Lower(P), x, x, XPush(Slot(p)), x');
    PushedArgument(P, f, x, x', n, v);
  }

  /** The code of a PARAM with n arguments already set. */
  lemma {:induction false} RunArgument(P: IrProgram, f: string, x: XState, p: int, n: nat, v: Word) returns (x': XState)
    requires IEnter(f) in P.code && Framed(x) && Offset(p) && Cell(x, p) == Some(v as int)
    requires XAt(Lower(P), x.pc, if n < 6 then [XMov(Slot(p), R(ARG_REGS[n]))] else [XPush(Slot(p))])
    requires x.regs[RSP] == RspOf(P, f, x.regs[RBP], n)
    ensures Reaches(XMachine(Lower(P)), x, x') && ArgumentAdded(P, f, x, x', n, v)
  {
    hide Reaches, RspOf, Lower, XAt, ArgumentAdded, Cell;
    if n < 6 {
      x' := RunRegisterArgument(P, f, x, p, n, v);
    } else {
      x' := RunPushedArgument(P, f, x, p, n, v);
    }
  }

  lemma {:induction false} RspAligned(P: IrProgram, f: string, B: int, n: nat)
    requires IEnter(f) in P.code && B % 8 == 0
    ensures RspOf(P, f, B, n) % 8 == 0
  {
    hide Reserved;
    assert RspOf(P, f, B, n) == 8 * (B / 8 - 2 * (Reserved(P, f) / 16) - StackArgs(n));
  }

  lemma {:induction false} PushedArgument(P: IrProgram, f: string, x: XState, x': XState, n: nat, v: Word)
    requires IEnter(f) in P.code && RBP in x.regs && RSP in x.regs && n >= 6
    requires x.regs[RSP] == RspOf(P, f, x.regs[RBP], n)
    requires x'.regs == x.regs[RSP := x.regs[RSP] - 8] && x'.mem == Set(x.mem, x.regs[RSP] - 8, Some(v as int))
    ensures SameAbove(x.mem, x'.mem, x.regs[RBP] - Reserved(P, f))
    ensures forall i :: 0 <= i <= n ==>
      ArgAt(P, f, x.regs[RBP], x', i) == if i < n then ArgAt(P, f, x.regs[RBP], x, i) else Some(v as int)
  {
    hide Reserved;
    forall i | 0 <= i <= n
      ensures ArgAt(P, f, x.regs[RBP], x', i) == if i < n then ArgAt(P, f, x.regs[RBP], x, i) else Some(v as int)
    {
      if i < 6 {
        RegistersApart(i, if i == 0 then 1 else 0);
      }
    }
  }

  /** What a PARAM finds: its operand's slot and its code. */
  lemma {:induction false} AtParam(P: IrProgram, base: Base, st: State, x: XState)
    requires Lowerable(P) && Match(P, base, st, x) && st.Running? && st.pc < |P.code| && P.code[st.pc].IParam?
    ensures HasMethod(P.code, st.f)
    ensures var n, off := P.code[st.pc].var1, SlotOf(Final(P, st.f), KeyOf(P.code[st.pc].var1));
            && XAt(Lower(P), x.pc,
                   if |st.pend| < 6 then [XMov(Slot(off), R(ARG_REGS[|st.pend|]))] else [XPush(Slot(off))])
            && Address(P, st.pc + 1) == x.pc + 1 && Offset(off)
            && (n in st.store ==> Cell(x, off) == Some(st.store[n] as int))
    ensures Framed(x) && Owns(P.code, st.f, st.pc + 1) && ParamCount(P.code, st.pc + 1) == |st.pend| + 1
    ensures MatchRunning(P, base, st.f, st.pc, st.store, st.pend, st.stack, st.tr, x)
  {
    hide Lowerable, SlotOf, Final, Address, ParamCount, XAt, Framed, MatchRunning, Lower, Within, HasMethod, Cell,
         Offset, KeyOf;
    MatchedAt(P, base, st, x);
    OperandLists(P.code[st.pc]);
    MatchedSlot(P, base, st, x, P.code[st.pc].var1);
  }

  lemma {:induction false} ParamStep(P: IrProgram, base: Base, st: State, x: XState) returns (x': XState)
    requires Lowerable(P) && Match(P, base, st, x) && st.Running? && st.pc < |P.code| && Step(P, st).Some?
    requires P.code[st.pc].IParam?
    ensures Reaches(XMachine(Lower(P)), x, x') && Match(P, base, Step(P, st).value, x')
  {
    hide Step, Lowerable, Reaches, SlotOf, SameAbove, Final, Reserved, Address, ParamCount, XAt, Framed, MatchRunning,
         Lower, ArgAt, Within, HasMethod, Cell, Offset, RspOf, KeyOf;
    ParamResult(P, st);
    AtParam(P, base, st, x);
    StackPointer(P, base, st, x);
    var n := P.code[st.pc].var1;
    var v := st.store[n];
    x' := RunArgument(P, st.f, x, SlotOf(Final(P, st.f), KeyOf(n)), |st.pend|, v);
    OneMoreArg(P, base, st.f, st.pc, st.store, st.pend, st.stack, st.tr, x, x', v);
  }

  lemma {:induction false} ParamResult(P: IrProgram, st: State)
    requires st.Running? && st.pc < |P.code| && Step(P, st).Some? && P.code[st.pc].IParam?
    ensures P.code[st.pc].var1 in st.store
    ensures Step(P, st).value == st.(pc := st.pc + 1, pend := st.pend + [st.store[P.code[st.pc].var1]])
  {
  }

  lemma {:induction false} StackPointer(P: IrProgram, base: Base, st: State, x: XState)
    requires st.Running? && Match(P, base, st, x)
    ensures IEnter(st.f) in P.code && RBP in x.regs && RSP in x.regs
    ensures x.regs[RSP] == RspOf(P, st.f, x.regs[RBP], |st.pend|)
  {
    hide Holds, StackMatch, SameAbove, Final, Reserved, Address, ParamCount, ArgsSet, Within;
  }

  // ----- entering a method -----

  /** The arguments as a method finds them behind its prologue's push: registers, then cells above rbp. */
  ghost predicate ArgsPassed(x: XState, B: int, vs: seq<Word>) {
    forall i :: 0 <= i < |vs| ==> Argument(x, B + 16, i) == Some(vs[i] as int)
  }

  ghost predicate SameButRax(x: XState, x': XState) {
    forall r :: r != RAX ==> Get(x'.regs, r) == Get(x.regs, r)
  }

  /** One argument goes to its parameter's slot. */
  lemma {:induction false} MoveArgument(X: XProgram, x: XState, j: nat, off: int, vs: seq<Word>) returns (x': XState)
    requires j < |vs| && XAt(X, x.pc, ParamCode(j, off)) && Framed(x) && Offset(off) && off < 0
    requires ArgsPassed(x, x.regs[RBP], vs)
    ensures Reaches(XMachine(X), x, x') && Stored(x, x', |ParamCode(j, off)|, off, Some(vs[j] as int))
    ensures SameButRax(x, x') && ArgsPassed(x', x.regs[RBP], vs)
  {
    hide Reaches;
    if j < 6 {
      ReachSelf(XMachine(X), x);
      x' := Finish(X, x, x, 0, ARG_REGS[j], off);
    } else {
      var up: int := 16 + (j - 6) * 8;
      x' := RunCopy(X, x, Slot(up), off);
    }
    RegistersApart(0, 1); RegistersApart(1, 0); RegistersApart(2, 0);
    RegistersApart(3, 0); RegistersApart(4, 0); RegistersApart(5, 0);
  }

  lemma {:induction false} SplitCode(X: XProgram, pc: int, a: seq<XInstr>, b: seq<XInstr>)
    requires XAt(X, pc, a + b)
    ensures XAt(X, pc, a) && XAt(X, pc + |a|, b)
  {
    forall j | pc <= j < pc + |a|
      ensures X.code[j] == a[j - pc]
    {
      assert (a + b)[j - pc] == a[j - pc];
    }
    forall j | pc + |a| <= j < pc + |a| + |b|
      ensures X.code[j] == b[j - (pc + |a|)]
    {
      assert (a + b)[j - pc] == b[j - pc - |a|];
    }
  }

  /** The prologue's moves bind every parameter in its slot. */
  lemma {:induction false} MoveArguments(X: XProgram, x: XState, m: seq<Key>, xs: seq<string>, vs: seq<Word>, n: nat)
    returns (x': XState)
    requires n <= |xs| == |vs| && XAt(X, x.pc, ParamsCode(m, xs, n)) && Framed(x) && ArgsPassed(x, x.regs[RBP], vs)
    requires forall j :: 0 <= j < |xs| ==> KId(xs[j]) in m
    ensures Reaches(XMachine(X), x, x') && Framed(x') && x'.pc == x.pc + |ParamsCode(m, xs, n)| && x'.tr == x.tr
    ensures SameButRax(x, x') && x'.regs[RBP] == x.regs[RBP] && ArgsPassed(x', x.regs[RBP], vs)
    ensures SameAbove(x.mem, x'.mem, x.regs[RBP])
    ensures Holds(m, BindParams(xs[..n], vs[..n]), x.regs[RBP], x'.mem)
    decreases n
  {
    hide Reaches, SlotOf, ParamCode, XAt, BindParams, ArgsPassed;
    var B := x.regs[RBP];
    if n == 0 {
      x' := x;
      ReachSelf(XMachine(X), x);
      NothingBound(m, xs[..0], vs[..0], B, x.mem);
    } else {
      var k := KId(xs[n - 1]);
      SplitCode(X, x.pc, ParamsCode(m, xs, n - 1), ParamCode(n - 1, SlotOf(m, k)));
      var x1 := MoveArguments(X, x, m, xs, vs, n - 1);
      SlotsApart(m, k, k);
      x' := MoveArgument(X, x1, n - 1, SlotOf(m, k), vs);
      ReachTrans(XMachine(X), x, x1, x');
      BoundMore(m, xs, vs, n, B, x1.mem);
    }
  }

  lemma {:induction false} NothingBound(m: seq<Key>, xs: seq<string>, vs: seq<Word>, B: int, mem: Memory)
    requires xs == [] && vs == []
    ensures Holds(m, BindParams(xs, vs), B, mem)
  {
  }

  lemma {:induction false} BindMore(xs: seq<string>, vs: seq<Word>, n: nat)
    requires 0 < n <= |xs| == |vs|
    ensures BindParams(xs[..n], vs[..n])
         == Set(BindParams(xs[..n - 1], vs[..n - 1]), Var(xs[n - 1]), Some(vs[n - 1]))
  {
    assert xs[..n][..n - 1] == xs[..n - 1] && vs[..n][..n - 1] == vs[..n - 1];
  }

  lemma {:induction false} BoundMore(m: seq<Key>, xs: seq<string>, vs: seq<Word>, n: nat, B: int, mem: Memory)
    requires 0 < n <= |xs| == |vs| && KId(xs[n - 1]) in m && Holds(m, BindParams(xs[..n - 1], vs[..n - 1]), B, mem)
    ensures var mem' := Set(mem, B + SlotOf(m, KId(xs[n - 1])), Some(vs[n - 1] as int));
            SameAbove(mem, mem', B) && Holds(m, BindParams(xs[..n], vs[..n]), B, mem')
  {
    hide Holds, SlotOf, SameAbove, BindParams;
    var s1 := BindParams(xs[..n - 1], vs[..n - 1]);
    HoldsWrite(m, s1, B, mem, Var(xs[n - 1]), Some(vs[n - 1]), Some(vs[n - 1] as int));
    BindMore(xs, vs, n);
  }

  /** The code of an ENTER, in terms of the method's final slots. */
  lemma {:induction false} EnterEmitted(P: IrProgram, f: string)
    requires Lowerable(P) && IEnter(f) in P.code
    ensures HasMethod(P.code, f) && Owns(P.code, f, EnterOf(P.code, f) + 1)
    ensures ParamCount(P.code, EnterOf(P.code, f) + 1) == 0 && f in P.sigs
    ensures Emitted(P, EnterOf(P.code, f)) == EnterCode(Final(P, f), f, Reserved(P, f), P.sigs[f].params)
    ensures forall x :: x in P.sigs[f].params ==> KId(x) in Final(P, f)
  {
    hide Structured, JumpsLocal, SlotOf, ParamsCode, FrameSize, FrameFits, AddKeys;
    var e, xs := EnterOf(P.code, f), P.sigs[f].params;
    OwnsFirst(P.code, f);
    EnterTable(P, f, xs);
    SameParamsCode(Table(P, e + 1), Final(P, f), xs, |xs|);
  }

  lemma {:induction false} EnterTable(P: IrProgram, f: string, xs: seq<string>)
    requires Structured(P.code) && IEnter(f) in P.code && HasMethod(P.code, f) && xs == ParamsOf(P, f)
    ensures Table(P, EnterOf(P.code, f) + 1) <= Final(P, f)
    ensures forall x :: x in xs ==> KId(x) in Table(P, EnterOf(P.code, f) + 1) && KId(x) in Final(P, f)
  {
    hide Structured, AddKeys;
    var e := EnterOf(P.code, f);
    TableGrows(P, f, e + 1, LeaveAt(P.code, f));
    AddKeysExtend([], ParamKeys(xs));
    forall x | x in xs
      ensures KId(x) in Table(P, e + 1)
    {
      var j :| 0 <= j < |xs| && xs[j] == x;
      assert ParamKeys(xs)[j] == KId(x);
    }
  }

  lemma {:induction false} SameParamsCode(m: seq<Key>, M: seq<Key>, xs: seq<string>, n: nat)
    requires n <= |xs| && m <= M && forall x :: x in xs ==> KId(x) in m
    ensures ParamsCode(m, xs, n) == ParamsCode(M, xs, n)
    decreases n
  {
    hide SlotOf, ParamCode;
    if n > 0 {
      SameParamsCode(m, M, xs, n - 1);
      SlotInPrefix(m, M, KId(xs[n - 1]));
    }
  }

  /** From the label of f to its first instruction: the frame is laid out and every parameter's slot
      holds the argument. */
  lemma {:induction false} EnterRuns(P: IrProgram, f: string, vs: seq<Word>, x: XState) returns (x': XState)
    requires Lowerable(P) && IEnter(f) in P.code && |P.sigs[f].params| == |vs|
    requires x.pc == Address(P, EnterOf(P.code, f)) && RBP in x.regs && RSP in x.regs && x.regs[RSP] % 8 == 0
    requires ArgsPassed(x, x.regs[RSP] - 8, vs)
    ensures Reaches(XMachine(Lower(P)), x, x')
    ensures HasMethod(P.code, f) && x'.pc == Address(P, EnterOf(P.code, f) + 1) && x'.tr == x.tr
    ensures RBP in x'.regs && RSP in x'.regs
    ensures var B := x.regs[RSP] - 8;
            && x'.regs[RBP] == B && x'.regs[RSP] == B - Reserved(P, f) && Get(x'.mem, B) == Some(x.regs[RBP])
            && Holds(Final(P, f), BindParams(P.sigs[f].params, vs), B, x'.mem)
            && SameAbove(x.mem, x'.mem, B + 8)
  {
    hide Reaches, Lowerable, Structured, ParamCount, Final, Reserved, Within, Emitted, ParamsCode, Lower, Address,
         XAt, SlotOf;
    EnterEmitted(P, f);
    var e, xs, m, size, B := EnterOf(P.code, f), P.sigs[f].params, Final(P, f), Reserved(P, f), x.regs[RSP] - 8;
    CodeAt(P, e);
    var x4 := PrologueRuns(Lower(P), f, x, size, m, xs, vs);
    x' := MoveArguments(Lower(P), x4, m, xs, vs, |xs|);
    ReachTrans(XMachine(Lower(P)), x, x4, x');
    assert xs[..|xs|] == xs && vs[..|vs|] == vs;
    assert Get(x'.mem, B) == Get(x4.mem, B);
    assert Get(x'.regs, RSP) == Get(x4.regs, RSP);
    AboveTrans(x.mem, x4.mem, x'.mem, B + 8, B);
  }

  /** label, push rbp, mov rsp to rbp. */
  lemma {:induction false} FramePushed(X: XProgram, f: string, x: XState) returns (x3: XState)
    requires XAt(X, x.pc, [XLabel(LFun(f)), XPush(R(RBP)), XMov(R(RSP), R(RBP))])
    requires RBP in x.regs && RSP in x.regs && x.regs[RSP] % 8 == 0
    ensures var B := x.regs[RSP] - 8;
            && Reaches(XMachine(X), x, x3) && x3.pc == x.pc + 3 && x3.tr == x.tr
            && x3.regs == x.regs[RSP := B][RBP := B] && x3.mem == Set(x.mem, B, Some(x.regs[RBP]))
  {
    hide Reaches;
    var B := x.regs[RSP] - 8;
    ReachSelf(XMachine(X), x);
    assert X.code[x.pc + 0] == XLabel(LFun(f));
    var x1 := x.(pc := x.pc + 1);
    XNext(X, x, x, XLabel(LFun(f)), x1);
    assert X.code[x.pc + 1] == XPush(R(RBP));
    var x2 := x1.(regs := x.regs[RSP := B], mem := Set(x.mem, B, Some(x.regs[RBP])), pc := x.pc + 2);
    XNext(X, x, x1, XPush(R(RBP)), x2);
    assert X.code[x.pc + 2] == XMov(R(RSP), R(RBP));
    x3 := SetReg(x2, RBP, Some(B));
    XNext(X, x, x2, XMov(R(RSP), R(RBP)), x3);
  }

  /** label, push rbp, mov rsp to rbp, sub. */
  lemma {:induction false} PrologueRuns(X: XProgram, f: string, x: XState, size: nat, m: seq<Key>, xs: seq<string>,
                                        vs: seq<Word>) returns (x4: XState)
    requires XAt(X, x.pc, EnterCode(m, f, size, xs)) && |xs| == |vs|
    requires RBP in x.regs && RSP in x.regs && x.regs[RSP] % 8 == 0 && ArgsPassed(x, x.regs[RSP] - 8, vs)
    ensures Reaches(XMachine(X), x, x4) && Framed(x4) && x4.tr == x.tr
    ensures XAt(X, x4.pc, ParamsCode(m, xs, |xs|)) && ArgsPassed(x4, x.regs[RSP] - 8, vs)
    ensures x4.pc + |ParamsCode(m, xs, |xs|)| == x.pc + |EnterCode(m, f, size, xs)|
    ensures x4.regs[RBP] == x.regs[RSP] - 8 && x4.regs[RSP] == x.regs[RSP] - 8 - size
    ensures x4.mem == Set(x.mem, x.regs[RSP] - 8, Some(x.regs[RBP])) && SameAbove(x.mem, x4.mem, x.regs[RSP])
  {
    hide Reaches, ParamsCode, ArgsPassed;
    var a := [XLabel(LFun(f)), XPush(R(RBP)), XMov(R(RSP), R(RBP))];
    var b := if size > 0 then [XSubRsp(size)] else [];
    SplitCode(X, x.pc, a + b, ParamsCode(m, xs, |xs|));
    SplitCode(X, x.pc, a, b);
    var B := x.regs[RSP] - 8;
    var x3 := FramePushed(X, f, x);
    x4 := x3;
    if size > 0 {
      assert X.code[x.pc + 3] == XSubRsp(size);
      x4 := Computed(x3, RSP, B - size);
      XNext(X, x, x3, XSubRsp(size), x4);
    }
    ArgsKept(x, x4, B, vs);
  }

  lemma {:induction false} ArgsKept(x: XState, x': XState, B: int, vs: seq<Word>)
    requires ArgsPassed(x, B, vs) && SameAbove(x.mem, x'.mem, B + 8)
    requires forall r :: r != RBP && r != RSP ==> Get(x'.regs, r) == Get(x.regs, r)
    ensures ArgsPassed(x', B, vs)
  {
    forall i | 0 <= i < |vs|
      ensures Argument(x', B + 16, i) == Some(vs[i] as int)
    {
      assert Argument(x, B + 16, i) == Some(vs[i] as int);
    }
  }

  // ----- calls and returns -----

  /** The rest of a CALL: the result to its cell, the stack arguments dropped. */
  lemma {:induction false} RunResult(X: XProgram, x: XState, off: int, k: nat) returns (x': XState)
    requires XAt(X, x.pc, [XMov(R(RAX), Slot(off))] + (if k > 0 then [XAddRsp(k)] else []))
    requires Framed(x) && Offset(off)
    ensures Reaches(XMachine(X), x, x') && Framed(x') && x'.tr == x.tr && x'.pc == x.pc + (if k > 0 then 2 else 1)
    ensures x'.regs[RBP] == x.regs[RBP] && x'.regs[RSP] == x.regs[RSP] + k
    ensures x'.mem == Set(x.mem, x.regs[RBP] + off, Get(x.regs, RAX))
  {
    hide Reaches;
    ReachSelf(XMachine(X), x);
    assert X.code[x.pc + 0] == XMov(R(RAX), Slot(off));
    x' := Finish(X, x, x, 0, RAX, off);
    if k > 0 {
      assert X.code[x.pc + 1] == XAddRsp(k);
      var x1 := x';
      x' := Computed(x1, RSP, x1.regs[RSP] + k);
      XNext(X, x, x1, XAddRsp(k), x');
    }
  }

  /** Back from a call: the caller's frame as it was, the result in rax if there is one. */
  ghost predicate CallDone(P: IrProgram, base: Base, f: string, pc: nat, s: Store, stk: Stack, tr: Trace,
                           v: Option<Word>, x: XState)
  {
    && Owns(P.code, f, pc) && P.code[pc].ICall? && x.pc == Address(P, pc) + 1 && x.tr == tr
    && RBP in x.regs && RSP in x.regs && x.regs[RSP] == RspOf(P, f, x.regs[RBP], ParamCount(P.code, pc))
    && Holds(Final(P, f), s, x.regs[RBP], x.mem)
    && StackMatch(P, base, stk, x.regs[RBP], x.mem)
    && SameAbove(base.mem, x.mem, base.top)
    && (v.Some? ==> Get(x.regs, RAX) == Some(v.value as int))
  }

  lemma {:induction false} AfterCall(P: IrProgram, base: Base, f: string, pc: nat, s: Store, stk: Stack, tr: Trace,
                                     v: Option<Word>, x: XState) returns (x': XState)
    requires Lowerable(P) && CallDone(P, base, f, pc, s, stk, tr, v, x)
    ensures Reaches(XMachine(Lower(P)), x, x')
    ensures MatchRunning(P, base, f, pc + 1, Set(s, P.code[pc].reg, v), [], stk, tr, x')
  {
    hide Lowerable, Reaches, Holds, SlotOf, StackMatch, SameAbove, Final, Reserved, Address, ParamCount, XAt, Lower,
         Within, HasMethod, Aligned, KeyOf, InstrCode, Operands, Set;
    AtReturn(P, f, pc);
    var m, d, B, n := Final(P, f), P.code[pc].reg, x.regs[RBP], ParamCount(P.code, pc);
    var off := SlotOf(m, KeyOf(d));
    HoldsWrite(m, s, B, x.mem, d, v, Get(x.regs, RAX));
    StackBelow(P, base, stk, B, x.mem);
    AlignedEight(P, base, stk, B);
    x' := RunResult(Lower(P), x, off, 8 * StackArgs(n));
    StackKept(P, base, stk, B, x.mem, x'.mem);
    AboveTrans(base.mem, x.mem, x'.mem, base.top, B);
  }

  /** What follows the call instruction of a CALL. */
  lemma {:induction false} AtReturn(P: IrProgram, f: string, pc: nat)
    requires Lowerable(P) && Owns(P.code, f, pc) && P.code[pc].ICall?
    ensures var k := 8 * StackArgs(ParamCount(P.code, pc));
            var off := SlotOf(Final(P, f), KeyOf(P.code[pc].reg));
            && XAt(Lower(P), Address(P, pc) + 1, [XMov(R(RAX), Slot(off))] + (if k > 0 then [XAddRsp(k)] else []))
            && Address(P, pc + 1) == Address(P, pc) + (if k > 0 then 3 else 2)
            && KeyOf(P.code[pc].reg) in Final(P, f)
    ensures Owns(P.code, f, pc + 1) && HasMethod(P.code, f) && ParamCount(P.code, pc + 1) == 0
  {
    hide Lowerable, SlotOf, Final, Address, ParamCount, XAt, Lower, Within, HasMethod, KeyOf, FrameFits;
    AtInstruction(P, f, pc);
    OperandLists(P.code[pc]);
    var d, n := P.code[pc].reg, ParamCount(P.code, pc);
    assert d in Operands(P.code[pc]);
    CallCode(Lower(P), Address(P, pc), P.code[pc].f, SlotOf(Final(P, f), KeyOf(d)), 8 * StackArgs(n));
  }

  lemma {:induction false} AlignedEight(P: IrProgram, base: Base, stk: Stack, B: int)
    requires Aligned(P, base, stk, B)
    ensures B % 8 == 0
  {
  }

  lemma {:induction false} CallCode(X: XProgram, pc: int, g: string, off: int, k: nat)
    requires XAt(X, pc, [XCall(g), XMov(R(RAX), Slot(off))] + (if k > 0 then [XAddRsp(k)] else []))
    ensures XAt(X, pc, [XCall(g)]) && XAt(X, pc + 1, [XMov(R(RAX), Slot(off))] + (if k > 0 then [XAddRsp(k)] else []))
  {
    var a := if k > 0 then [XAddRsp(k)] else [];
    assert [XCall(g), XMov(R(RAX), Slot(off))] + a == [XCall(g)] + ([XMov(R(RAX), Slot(off))] + a);
    SplitCode(X, pc, [XCall(g)], [XMov(R(RAX), Slot(off))] + a);
  }

  /** From the label at a method's end back into its caller. */
  lemma {:induction false} LeaveRuns(P: IrProgram, base: Base, f: string, stk: Stack, tr: Trace, v: Option<Word>,
      x: XState)
    returns (x': XState)
    requires Lowerable(P) && HasMethod(P.code, f) && x.pc == Address(P, LeaveAt(P.code, f)) && x.tr == tr
    requires RBP in x.regs && RSP in x.regs && StackMatch(P, base, stk, x.regs[RBP], x.mem)
    requires SameAbove(base.mem, x.mem, base.top) && (v.Some? ==> Get(x.regs, RAX) == Some(v.value as int))
    ensures Reaches(XMachine(Lower(P)), x, x') && Match(P, base, PopFrame(v, stk, tr), x')
  {
    hide Reaches, Lowerable, Holds, SameAbove, Final, Reserved, Address, ParamCount, XAt, Lower, Within, Aligned,
         Emitted, CallDone, MatchRunning, HasMethod, RspOf, Suspended;
    var l, B := LeaveAt(P.code, f), x.regs[RBP];
    CodeAt(P, l);
    EmittedLeave(P, l);
    StackBelow(P, base, stk, B, x.mem);
    AlignedEight(P, base, stk, B);
    var x1 := EpilogueRuns(Lower(P), f, x);
    if stk.Push? {
      var fr := stk.top;
      Resumed(P, base, fr, stk.rest, tr, v, B, x.mem, x1);
      x' := AfterCall(P, base, fr.f, fr.pc - 1, fr.store, stk.rest, tr, v, x1);
      ReachTrans(XMachine(Lower(P)), x, x1, x');
    } else {
      x' := x1;
    }
  }

  lemma {:induction false} Resumed(P: IrProgram, base: Base, fr: Frame, rest: Stack, tr: Trace, v: Option<Word>, B: int,
                                   mem: Memory, x1: XState)
    requires StackMatch(P, base, Push(fr, rest), B, mem) && SameAbove(base.mem, mem, base.top)
    requires x1.mem == mem && x1.tr == tr && x1.pc == mem[B + 8] && Get(x1.regs, RBP) == Some(mem[B])
    requires Get(x1.regs, RSP) == Some(B + 16) && (v.Some? ==> Get(x1.regs, RAX) == Some(v.value as int))
    ensures 0 < fr.pc && CallDone(P, base, fr.f, fr.pc - 1, fr.store, rest, tr, v, x1)
    ensures P.code[fr.pc - 1].reg == fr.reg
  {
    hide Holds, SameAbove, Final, Reserved, Address, ParamCount, Within, Aligned, HasMethod;
  }

  lemma {:induction false} EpilogueRuns(X: XProgram, f: string, x: XState) returns (x': XState)
    requires XAt(X, x.pc, [XLabel(LLeave(f)), XMov(R(RBP), R(RSP)), XPop(RBP), XRet])
    requires Framed(x) && x.regs[RBP] in x.mem && x.regs[RBP] + 8 in x.mem
    ensures var B := x.regs[RBP];
            && Reaches(XMachine(X), x, x') && x'.pc == x.mem[B + 8] && x'.tr == x.tr && x'.mem == x.mem
            && Get(x'.regs, RBP) == Some(x.mem[B]) && Get(x'.regs, RSP) == Some(B + 16)
            && Get(x'.regs, RAX) == Get(x.regs, RAX)
  {
    hide Reaches;
    var B := x.regs[RBP];
    ReachSelf(XMachine(X), x);
    assert X.code[x.pc + 0] == XLabel(LLeave(f));
    var x1 := x.(pc := x.pc + 1);
    XNext(X, x, x, XLabel(LLeave(f)), x1);
    assert X.code[x.pc + 1] == XMov(R(RBP), R(RSP));
    var x2 := SetReg(x1, RSP, Some(B));
    XNext(X, x, x1, XMov(R(RBP), R(RSP)), x2);
    assert X.code[x.pc + 2] == XPop(RBP) && X.code[x.pc + 3] == XRet;
    x' := PopAndReturn(X, x, x2, B);
  }

  /** pop rbp, ret: with rsp at B. */
  lemma {:induction false} PopAndReturn(X: XProgram, a: XState, x: XState, B: int) returns (x': XState)
    requires Reaches(XMachine(X), a, x) && 0 <= x.pc && x.pc + 1 < |X.code|
    requires X.code[x.pc] == XPop(RBP) && X.code[x.pc + 1] == XRet
    requires Get(x.regs, RSP) == Some(B) && B % 8 == 0 && B in x.mem && B + 8 in x.mem
    ensures Reaches(XMachine(X), a, x') && x'.pc == x.mem[B + 8] && x'.tr == x.tr && x'.mem == x.mem
    ensures Get(x'.regs, RBP) == Some(x.mem[B]) && Get(x'.regs, RSP) == Some(B + 16)
    ensures Get(x'.regs, RAX) == Get(x.regs, RAX)
  {
    hide Reaches;
    var x1 := x.(regs := Set(x.regs[RSP := B + 8], RBP, Some(x.mem[B])), pc := x.pc + 1);
    XNext(X, a, x, XPop(RBP), x1);
    x' := x1.(pc := x.mem[B + 8], regs := x1.regs[RSP := B + 16]);
    XMore(X, a, x1, x');
  }

  lemma {:induction false} LeaveStep(P: IrProgram, base: Base, st: State, x: XState) returns (x': XState)
    requires Lowerable(P) && Match(P, base, st, x) && st.Running? && st.pc < |P.code| && Step(P, st).Some?
    requires P.code[st.pc].ILeave?
    ensures Reaches(XMachine(Lower(P)), x, x') && Match(P, base, Step(P, st).value, x')
  {
    hide Lowerable, Reaches, Holds, StackMatch, SameAbove, Final, Reserved, Address, ParamCount, ArgsSet, Lower, Within;
    LeaveOwned(P, st.f, st.pc);
    x' := LeaveRuns(P, base, st.f, st.stack, st.tr, None, x);
  }

  lemma {:induction false} LeaveOwned(P: IrProgram, f: string, pc: nat)
    requires Lowerable(P) && Owns(P.code, f, pc) && P.code[pc].ILeave?
    ensures HasMethod(P.code, f) && pc == LeaveAt(P.code, f)
  {
    hide Within;
    OwnLeave(P.code, pc);
  }

  /** The epilogue's label is at the method's LEAVE. */
  lemma {:induction false} LeaveLabel(P: IrProgram, f: string)
    requires HasMethod(P.code, f)
    ensures IndexOf(Lower(P).code, XLabel(LLeave(f))) == Some(Address(P, LeaveAt(P.code, f)))
  {
    hide Assembly;
    FindLabel(P, LLeave(f));
  }

  /** The value a RET returns. */
  function ReturnValue(s: Store, val: Option<Name>): Option<Word> {
    if val.None? then None else Get(s, val.value)
  }

  /** The first half of a RET: the value, if there is one, goes to rax. */
  lemma {:induction false} RetLoads(P: IrProgram, base: Base, st: State, x: XState) returns (x1: XState)
    requires Lowerable(P) && Match(P, base, st, x) && st.Running? && st.pc < |P.code| && P.code[st.pc].IRet?
    ensures Reaches(XMachine(Lower(P)), x, x1)
    ensures 0 <= x1.pc < |Lower(P).code| && Lower(P).code[x1.pc] == XJmp(LLeave(st.f))
    ensures x1.mem == x.mem && x1.tr == x.tr
    ensures Get(x1.regs, RBP) == Get(x.regs, RBP) && Get(x1.regs, RSP) == Get(x.regs, RSP)
    ensures var v := ReturnValue(st.store, P.code[st.pc].val); v.Some? ==> Get(x1.regs, RAX) == Some(v.value as int)
  {
    hide Lowerable, Reaches, Holds, SlotOf, StackMatch, SameAbove, Final, Reserved, Owns, Address, ParamCount,
         ArgsSet, Lower, HasMethod, Cell, Offset, MatchRunning;
    MatchedAt(P, base, st, x);
    var i, X := P.code[st.pc], Lower(P);
    ReachSelf(XMachine(X), x);
    x1 := x;
    if i.val.Some? {
      assert i.val.value in Operands(i) by { OperandLists(i); }
      MatchedSlot(P, base, st, x, i.val.value);
      assert X.code[x.pc + 0] == XMov(Sl(Final(P, st.f), i.val.value), R(RAX));
      x1 := Begin(X, x, Sl(Final(P, st.f), i.val.value));
      ReadIsCell(x, SlotOf(Final(P, st.f), KeyOf(i.val.value)));
    }
    assert X.code[x1.pc] == XJmp(LLeave(st.f));
  }

  lemma {:induction false} RetStep(P: IrProgram, base: Base, st: State, x: XState) returns (x': XState)
    requires Lowerable(P) && Match(P, base, st, x) && st.Running? && st.pc < |P.code| && Step(P, st).Some?
    requires P.code[st.pc].IRet?
    ensures Reaches(XMachine(Lower(P)), x, x') && Match(P, base, Step(P, st).value, x')
  {
    hide Lowerable, Reaches, StackMatch, SameAbove, Reserved, Owns, Address, Lower, HasMethod, PopFrame, Match, Step;
    var x1 := RetLoads(P, base, st, x);
    var X, v := Lower(P), ReturnValue(st.store, P.code[st.pc].val);
    OwnerHere(P, base, st, x);
    LeaveLabel(P, st.f);
    var x2 := x1.(pc := Address(P, LeaveAt(P.code, st.f)));
    XMore(X, x, x1, x2);
    StackOf(P, base, st, x);
    x' := LeaveRuns(P, base, st.f, st.stack, st.tr, v, x2);
    ReachTrans(XMachine(X), x, x2, x');
    RetResult(P, st, v);
  }

  lemma {:induction false} OwnerHere(P: IrProgram, base: Base, st: State, x: XState)
    requires st.Running? && Match(P, base, st, x)
    ensures HasMethod(P.code, st.f)
  {
    hide Holds, StackMatch, SameAbove, Final, Reserved, Address, ParamCount, ArgsSet, Within, HasMethod;
  }

  lemma {:induction false} RetResult(P: IrProgram, st: State, v: Option<Word>)
    requires st.Running? && st.pc < |P.code| && P.code[st.pc].IRet? && v == ReturnValue(st.store, P.code[st.pc].val)
    ensures Step(P, st) == Some(PopFrame(v, st.stack, st.tr))
  {
    hide PopFrame;
  }

  lemma {:induction false} ReadIsCell(x: XState, off: int)
    ensures Read(x, Slot(off)) == Cell(x, off)
  {
  }

  lemma {:induction false} StackOf(P: IrProgram, base: Base, st: State, x: XState)
    requires st.Running? && Match(P, base, st, x)
    ensures RBP in x.regs && RSP in x.regs && StackMatch(P, base, st.stack, x.regs[RBP], x.mem) && x.tr == st.tr
    ensures SameAbove(base.mem, x.mem, base.top)
  {
    hide Holds, StackMatch, SameAbove, Final, Reserved, Address, ParamCount, ArgsSet, Owns;
  }

  /** At the call instruction, for any number of arguments, the calling convention reads them so. */
  lemma {:induction false} ArgumentsReceived(P: IrProgram, f: string, x: XState, vs: seq<Word>)
    requires IEnter(f) in P.code && RBP in x.regs && RSP in x.regs && ArgsSet(P, f, x.regs[RBP], x, vs)
    requires x.regs[RSP] == RspOf(P, f, x.regs[RBP], |vs|)
    ensures ArgValues(x, |vs|) == Some(Received(vs))
  {
    hide FrameSize;
    forall i | 0 <= i < |vs|
      ensures ArgValue(x, i) == Some(Received(vs)[i] as int)
    {
      var j := if i < 6 then i else |vs| + 5 - i;
      assert ArgAt(P, f, x.regs[RBP], x, j) == Some(vs[j] as int);
    }
    var r := ArgValues(x, |vs|);
    assert r.Some? ==> r.value == Received(vs);
  }

  /** The call instruction pushes the return address and goes to the method's label. */
  lemma {:induction false} CallGoes(P: IrProgram, g: string, x: XState, vs: seq<Word>) returns (x1: XState)
    requires XAt(Lower(P), x.pc, [XCall(g)]) && IEnter(g) in P.code && Framed(x) && x.regs[RSP] % 8 == 0
    requires g in P.sigs && |P.sigs[g].params| == |vs| && ArgValues(x, |vs|) == Some(vs)
    ensures Reaches(XMachine(Lower(P)), x, x1)
    ensures x1 == x.(regs := x.regs[RSP := x.regs[RSP] - 8], mem := Set(x.mem, x.regs[RSP] - 8, Some(x.pc + 1)),
                     pc := Address(P, EnterOf(P.code, g)), tr := x.tr + [Event(g, vs)])
  {
    hide Reaches, Assembly, Address, ArgValues;
    FindLabel(P, LFun(g));
    assert Lower(P).code[x.pc + 0] == XCall(g);
    x1 := x.(regs := x.regs[RSP := x.regs[RSP] - 8], mem := Set(x.mem, x.regs[RSP] - 8, Some(x.pc + 1)),
             pc := Address(P, EnterOf(P.code, g)), tr := x.tr + [Event(g, vs)]);
    ReachSelf(XMachine(Lower(P)), x);
    XMore(Lower(P), x, x, x1);
  }

  /** A call out of the program. */
  lemma {:induction false} CallOut(P: IrProgram, g: string, x: XState, vs: seq<Word>) returns (x1: XState)
    requires XAt(Lower(P), x.pc, [XCall(g)]) && IEnter(g) !in P.code && Framed(x)
    requires g in P.sigs && P.sigs[g].isExtern && |P.sigs[g].params| == |vs| && ArgValues(x, |vs|) == Some(vs)
    requires x.regs[RSP] % 16 == 0
    ensures Reaches(XMachine(Lower(P)), x, x1)
    ensures x1.pc == x.pc + 1 && x1.tr == x.tr + [Event(g, vs)] && Get(x1.regs, RAX) == OptionInt(P.ext(x1.tr))
    ensures Get(x1.regs, RBP) == Get(x.regs, RBP) && Get(x1.regs, RSP) == Get(x.regs, RSP)
    ensures SameAbove(x.mem, x1.mem, x.regs[RSP] + 8 * StackArgs(|vs|))
  {
    hide Reaches, Assembly, Address, ArgValues;
    FindLabel(P, LFun(g));
    assert Lower(P).code[x.pc + 0] == XCall(g);
    x1 := ExternCall(Lower(P), x.(tr := x.tr + [Event(g, vs)]), |vs|).value;
    ReachSelf(XMachine(Lower(P)), x);
    XMore(Lower(P), x, x, x1);
  }

  function OptionInt(v: Option<Word>): Option<int> {
    match v
    case None => None
    case Some(w) => Some(w as int)
  }

  /** What the caller set is what the callee's prologue reads. */
  lemma {:induction false} ArgumentsArrive(P: IrProgram, f: string, x: XState, x1: XState, vs: seq<Word>, ret: int)
    requires IEnter(f) in P.code && RBP in x.regs && RSP in x.regs && ArgsSet(P, f, x.regs[RBP], x, vs)
    requires x.regs[RSP] == RspOf(P, f, x.regs[RBP], |vs|) && Received(vs) == vs
    requires x1.regs == x.regs[RSP := x.regs[RSP] - 8] && x1.mem == Set(x.mem, x.regs[RSP] - 8, Some(ret))
    ensures ArgsPassed(x1, x.regs[RSP] - 16, vs)
  {
    hide FrameSize;
    RegistersApart(0, 1); RegistersApart(1, 0); RegistersApart(2, 0);
    RegistersApart(3, 0); RegistersApart(4, 0); RegistersApart(5, 0);
    forall i | 0 <= i < |vs|
      ensures Argument(x1, x.regs[RSP], i) == Some(vs[i] as int)
    {
      RegisterTable(x1, x.regs[RSP], i);
      var j := if i < 6 then i else |vs| + 5 - i;
      assert Received(vs)[i] == vs[j];
      assert ArgAt(P, f, x.regs[RBP], x, j) == Some(vs[j] as int);
    }
  }

  /** The caller's frame becomes the top suspended one. */
  lemma {:induction false} Suspend(P: IrProgram, base: Base, f: string, pc: nat, s: Store, pend: seq<Word>, stk: Stack,
                                   tr: Trace, x: XState, mem': Memory)
    requires Lowerable(P) && MatchRunning(P, base, f, pc, s, pend, stk, tr, x) && P.code[pc].ICall?
    requires StackedBy(P, pc + 1) == StackArgs(|pend|)
    requires var B' := x.regs[RSP] - 16;
             && Get(mem', B') == Some(x.regs[RBP]) && Get(mem', B' + 8) == Some(x.pc + 1)
             && SameAbove(x.mem, mem', x.regs[RSP])
    ensures StackMatch(P, base, Push(Frame(f, pc + 1, s, P.code[pc].reg), stk), x.regs[RSP] - 16, mem')
    ensures SameAbove(base.mem, mem', base.top)
  {
    hide Lowerable, Holds, SlotOf, Final, Address, ParamCount, Within, ArgsSet, Reserved, HasMethod, Aligned,
         StackMatch, FrameFits, InstrCode, XAt, Operands;
    var B := x.regs[RBP];
    AtInstruction(P, f, pc);
    StackBelow(P, base, stk, B, x.mem);
    SuspendMemory(P, base, f, s, stk, B, x.regs[RSP], x.mem, mem');
    SuspendTop(P, base, Frame(f, pc + 1, s, P.code[pc].reg), stk, x.regs[RSP] - 16, mem');
  }

  lemma {:induction false} SuspendTop(P: IrProgram, base: Base, fr: Frame, stk: Stack, B': int, mem': Memory)
    requires Suspended(P, fr) && B' in mem'
    requires Get(mem', B' + 8) == Some(Address(P, fr.pc - 1) + 1)
    requires B' + 16 == RspOf(P, fr.f, mem'[B'], ParamCount(P.code, fr.pc - 1))
    requires Holds(Final(P, fr.f), fr.store, mem'[B'], mem') && StackMatch(P, base, stk, mem'[B'], mem')
    ensures StackMatch(P, base, Push(fr, stk), B', mem')
  {
    hide Holds, Final, Address, ParamCount, Reserved, HasMethod, Aligned, Within;
  }

  lemma {:induction false} SuspendMemory(P: IrProgram, base: Base, f: string, s: Store, stk: Stack, B: int, lo: int,
                                         mem: Memory, mem': Memory)
    requires Lowerable(P) && HasMethod(P.code, f) && FrameFits(P, f) && lo <= B - Reserved(P, f) && lo <= B
    requires Holds(Final(P, f), s, B, mem) && StackMatch(P, base, stk, B, mem) && SameAbove(mem, mem', lo)
    requires SameAbove(base.mem, mem, base.top)
    ensures Holds(Final(P, f), s, B, mem') && StackMatch(P, base, stk, B, mem') && SameAbove(base.mem, mem', base.top)
  {
    hide Lowerable, Holds, SameAbove, StackMatch, HasMethod, FrameFits, Final, Reserved;
    HoldsKeptAt(P, f, s, B, mem, mem', lo);
    StackBelow(P, base, stk, B, mem);
    AboveSelf(mem, B);
    AboveTrans(mem, mem, mem', B, lo);
    StackKept(P, base, stk, B, mem, mem');
    AboveTrans(base.mem, mem, mem', base.top, lo);
  }

  lemma {:induction false} HoldsKeptAt(P: IrProgram, f: string, s: Store, B: int, mem: Memory, mem': Memory, lo: int)
    requires Lowerable(P) && HasMethod(P.code, f) && FrameFits(P, f) && lo <= B - Reserved(P, f)
    requires Holds(Final(P, f), s, B, mem) && SameAbove(mem, mem', lo)
    ensures Holds(Final(P, f), s, B, mem')
  {
    hide Holds, SameAbove, Structured, JumpsLocal, ParamRuns, Final, Reserved, Within, IndexOf;
    AboveSelf(mem, B - Reserved(P, f));
    AboveTrans(mem, mem, mem', B - Reserved(P, f), lo);
    HoldsKept(P, f, s, B, mem, mem');
  }

  /** What a CALL finds: the calling state, its arguments in place. */
  lemma {:induction false} AtCall(P: IrProgram, base: Base, st: State, x: XState)
    requires Lowerable(P) && Match(P, base, st, x) && st.Running? && st.pc < |P.code| && P.code[st.pc].ICall?
    requires P.code[st.pc].f in P.sigs && |P.sigs[P.code[st.pc].f].params| == |st.pend|
    ensures HasMethod(P.code, st.f) && IEnter(st.f) in P.code && Framed(x)
    ensures XAt(Lower(P), x.pc, [XCall(P.code[st.pc].f)])
    ensures x.regs[RSP] == RspOf(P, st.f, x.regs[RBP], |st.pend|) && x.regs[RSP] % 8 == 0
    ensures ArgsSet(P, st.f, x.regs[RBP], x, st.pend) && ArgValues(x, |st.pend|) == Some(Received(st.pend))
    ensures MatchRunning(P, base, st.f, st.pc, st.store, st.pend, st.stack, st.tr, x) && x.tr == st.tr
  {
    hide Structured, JumpsLocal, ParamRuns, Holds, SlotOf, StackMatch, SameAbove, Final, Address, ParamCount, Lower,
         ArgsSet, Reserved, HasMethod, ArgValues, FrameFits, RspOf;
    MatchedAt(P, base, st, x);
    StackPointer(P, base, st, x);
    RspAligned(P, st.f, x.regs[RBP], |st.pend|);
    var i := P.code[st.pc];
    CallCode(Lower(P), x.pc, i.f, SlotOf(Final(P, st.f), KeyOf(i.reg)), 8 * StackArgs(|st.pend|));
    ArgumentsReceived(P, st.f, x, st.pend);
  }

  /** At a call, the number of arguments on the stack decides whether rsp is a multiple of 16. */
  lemma {:induction false} CallParity(P: IrProgram, base: Base, st: State, x: XState)
    requires st.Running? && Match(P, base, st, x)
    ensures RSP in x.regs && (x.regs[RSP] % 16 == 0 <==> (base.top - 8 * OnStack(P, st)) % 16 == 0)
  {
    hide MatchRunning, StackMatch, Reserved, Stacked, SameAbove;
    StackOf(P, base, st, x);
    StackPointer(P, base, st, x);
    var B := x.regs[RBP];
    StackBelow(P, base, st.stack, B, x.mem);
    ParityArithmetic(base.top, B, Reserved(P, st.f), StackArgs(|st.pend|), Stacked(P, st.stack));
  }

  lemma {:induction false} ParityArithmetic(top: int, B: int, size: nat, s: nat, below: nat)
    requires size % 16 == 0 && (top - B) % 16 == 8 * (below % 2)
    ensures (B - size - 8 * s) % 16 == 0 <==> (top - 8 * (below + s)) % 16 == 0
  {
    var d := top - 8 * (below + s) - (B - size - 8 * s);
    assert d == 16 * ((top - B) / 16 - below / 2 + size / 16);
  }

  lemma {:induction false} CallInside(P: IrProgram, base: Base, st: State, x: XState) returns (x': XState)
    requires Lowerable(P) && Match(P, base, st, x) && st.Running? && st.pc < |P.code| && Step(P, st).Some?
    requires P.code[st.pc].ICall? && P.code[st.pc].f in P.sigs && !P.sigs[P.code[st.pc].f].isExtern
    requires CallArrives(P, st, base.top)
    ensures Reaches(XMachine(Lower(P)), x, x') && Match(P, base, Step(P, st).value, x')
  {
    hide Lowerable, Reaches, Holds, SlotOf, StackMatch, SameAbove, Final, Address, ParamCount, Lower, XAt, ArgsSet,
         Reserved, HasMethod, ArgValues, MatchRunning, BindParams, Within, RspOf, ArgsPassed;
    var i := P.code[st.pc];
    AtCall(P, base, st, x);
    var x1 := CallGoes(P, i.f, x, st.pend);
    ArgumentsArrive(P, st.f, x, x1, st.pend, x.pc + 1);
    x' := EnterRuns(P, i.f, st.pend, x1);
    ReachTrans(XMachine(Lower(P)), x, x1, x');
    CalleeMatches(P, base, st.f, st.pc, st.store, st.pend, st.stack, st.tr, i.f, i.reg,
                  BindParams(P.sigs[i.f].params, st.pend), x, x1.mem, x');
  }

  lemma {:induction false} CalleeMatches(P: IrProgram, base: Base, f: string, pc: nat, s: Store, pend: seq<Word>,
      stk: Stack,
                                         tr: Trace, g: string, d: Name, s': Store, x: XState, mem1: Memory, x': XState)
    requires Lowerable(P) && pc < |P.code| && P.code[pc] == ICall(g, d) && IEnter(g) in P.code && HasMethod(P.code, g)
    requires RBP in x.regs && RSP in x.regs && MatchRunning(P, base, f, pc, s, pend, stk, tr, x)
    requires StackedBy(P, pc + 1) == StackArgs(|pend|)
    requires mem1 == Set(x.mem, x.regs[RSP] - 8, Some(x.pc + 1)) && SameAbove(mem1, x'.mem, x.regs[RSP] - 8)
    requires x'.pc == Address(P, EnterOf(P.code, g) + 1)
    requires Get(x'.regs, RBP) == Some(x.regs[RSP] - 16) && Get(x'.regs, RSP) == Some(x.regs[RSP] - 16 - Reserved(P, g))
    requires Get(x'.mem, x.regs[RSP] - 16) == Some(x.regs[RBP])
    requires Holds(Final(P, g), s', x.regs[RSP] - 16, x'.mem)
    ensures MatchRunning(P, base, g, EnterOf(P.code, g) + 1, s', [], Push(Frame(f, pc + 1, s, d), stk), x'.tr, x')
  {
    hide Lowerable, MatchRunning, Holds, StackMatch, SameAbove, Final, Address, ParamCount, Reserved, HasMethod, Owns,
         Set, Emitted, EnterCode;
    EnterEmitted(P, g);
    ReturnKept(x.mem, mem1, x'.mem, x.regs[RSP], x.pc + 1);
    Suspend(P, base, f, pc, s, pend, stk, tr, x, x'.mem);
    CalleeStarts(P, base, g, s', Push(Frame(f, pc + 1, s, d), stk), x'.tr, x');
  }

  /** The return address is still there, and so is everything above it. */
  lemma {:induction false} ReturnKept(mem: Memory, mem1: Memory, mem': Memory, rsp: int, ret: int)
    requires mem1 == Set(mem, rsp - 8, Some(ret)) && SameAbove(mem1, mem', rsp - 8)
    ensures Get(mem', rsp - 8) == Some(ret) && SameAbove(mem, mem', rsp)
  {
    assert Get(mem', rsp - 8) == Get(mem1, rsp - 8);
    forall a | a >= rsp
      ensures Get(mem', a) == Get(mem, a)
    {
      assert Get(mem', a) == Get(mem1, a);
    }
  }

  lemma {:induction false} CalleeStarts(P: IrProgram, base: Base, g: string, s: Store, stk: Stack, tr: Trace,
      x': XState)
    requires Lowerable(P) && IEnter(g) in P.code && HasMethod(P.code, g) && Owns(P.code, g, EnterOf(P.code, g) + 1)
    requires ParamCount(P.code, EnterOf(P.code, g) + 1) == 0
    requires x'.pc == Address(P, EnterOf(P.code, g) + 1) && x'.tr == tr && RBP in x'.regs
    requires Get(x'.regs, RSP) == Some(x'.regs[RBP] - Reserved(P, g))
    requires Holds(Final(P, g), s, x'.regs[RBP], x'.mem) && StackMatch(P, base, stk, x'.regs[RBP], x'.mem)
    requires SameAbove(base.mem, x'.mem, base.top)
    ensures MatchRunning(P, base, g, EnterOf(P.code, g) + 1, s, [], stk, tr, x')
  {
    hide Lowerable, Holds, StackMatch, SameAbove, Final, Address, ParamCount, Reserved, HasMethod, Owns, ArgsSet;
    NoArgs(P, g, x'.regs[RBP], x');
  }

  lemma {:induction false} NoArgs(P: IrProgram, f: string, B: int, x: XState)
    requires IEnter(f) in P.code
    ensures ArgsSet(P, f, B, x, [])
  {
  }

  lemma {:induction false} CallOutside(P: IrProgram, base: Base, st: State, x: XState) returns (x': XState)
    requires Lowerable(P) && Match(P, base, st, x) && st.Running? && st.pc < |P.code| && Step(P, st).Some?
    requires P.code[st.pc].ICall? && P.code[st.pc].f in P.sigs && P.sigs[P.code[st.pc].f].isExtern
    requires CallArrives(P, st, base.top)
    ensures Reaches(XMachine(Lower(P)), x, x') && Match(P, base, Step(P, st).value, x')
  {
    hide Reaches, Holds, SlotOf, StackMatch, SameAbove, Final, Address, ParamCount, Lower, XAt, ArgsSet, Reserved,
         HasMethod, ArgValues, MatchRunning, Structured, JumpsLocal, ParamRuns, CallDone;
    var i := P.code[st.pc];
    AtCall(P, base, st, x);
    CallParity(P, base, st, x);
    var x1 := CallOut(P, i.f, x, st.pend);
    var v := P.ext(x1.tr);
    Answered(P, base, st, x, x1, v);
    x' := AfterCall(P, base, st.f, st.pc, st.store, st.stack, x1.tr, v, x1);
    ReachTrans(XMachine(Lower(P)), x, x1, x');
  }

  lemma {:induction false} Answered(P: IrProgram, base: Base, st: State, x: XState, x1: XState, v: Option<Word>)
    requires Lowerable(P) && st.Running? && MatchRunning(P, base, st.f, st.pc, st.store, st.pend, st.stack, st.tr, x)
    requires P.code[st.pc].ICall? && x1.pc == x.pc + 1 && Get(x1.regs, RAX) == OptionInt(v)
    requires Get(x1.regs, RBP) == Get(x.regs, RBP) && Get(x1.regs, RSP) == Get(x.regs, RSP)
    requires SameAbove(x.mem, x1.mem, x.regs[RSP] + 8 * StackArgs(|st.pend|))
    ensures CallDone(P, base, st.f, st.pc, st.store, st.stack, x1.tr, v, x1)
  {
    hide Lowerable, Holds, SlotOf, StackMatch, SameAbove, Final, Address, ParamCount, Reserved, Within, ArgsSet,
         FrameFits, InstrCode, XAt, Operands, HasMethod, Aligned;
    AtInstruction(P, st.f, st.pc);
    var B := x.regs[RBP];
    assert x.regs[RSP] + 8 * StackArgs(|st.pend|) == B - Reserved(P, st.f);
    SuspendMemory(P, base, st.f, st.store, st.stack, B, B - Reserved(P, st.f), x.mem, x1.mem);
  }

  // ----- runs -----

  /** Every step of the three-address machine is simulated by the assembly. */
  lemma {:induction false} SimulateStep(P: IrProgram, base: Base, st: State, x: XState) returns (x': XState)
    requires Lowerable(P) && Match(P, base, st, x) && Step(P, st).Some? && CallArrives(P, st, base.top)
    ensures Reaches(XMachine(Lower(P)), x, x') && Match(P, base, Step(P, st).value, x')
  {
    hide Lowerable, Reaches, Match, Step, CallArrives;
    StepKinds(P, st);
    var i := P.code[st.pc];
    if Computes(i) { x' := DataStep(P, base, st, x); }
    else if i.IRet? { x' := RetStep(P, base, st, x); }
    else if i.IJmp? { x' := JmpStep(P, base, st, x); }
    else if i.IJmpf? { x' := JmpfStep(P, base, st, x); }
    else if i.IParam? { x' := ParamStep(P, base, st, x); }
    else if i.ILeave? { x' := LeaveStep(P, base, st, x); }
    else if i.ICall? {
      if P.sigs[i.f].isExtern { x' := CallOutside(P, base, st, x); } else { x' := CallInside(P, base, st, x); }
    } else { x' := PlainStep(P, base, st, x); }
  }

  lemma {:induction false} StepKinds(P: IrProgram, st: State)
    requires Step(P, st).Some?
    ensures st.Running? && st.pc < |P.code| && !P.code[st.pc].IEnter? && !P.code[st.pc].IExtern?
    ensures P.code[st.pc].ICall? ==> P.code[st.pc].f in P.sigs
  {
    hide IrApply, ShiftDivide, ApplyUn;
  }

  /** The first n steps from st make no call but those that go through. */
  ghost predicate ArriveWithin(P: IrProgram, st: State, n: nat, top: int)
    decreases n
  {
    n > 0 ==> CallArrives(P, st, top) && (Step(P, st).Some? ==> ArriveWithin(P, Step(P, st).value, n - 1, top))
  }

  lemma {:induction false} ArriveAll(P: IrProgram, st: State, n: nat, top: int)
    requires CallsArrive(P, st, top)
    ensures ArriveWithin(P, st, n, top)
    decreases n
  {
    hide CallArrives, Step, Reaches;
    if n > 0 {
      ReachSelf(Machine(P), st);
      if Step(P, st).Some? {
        var st1 := Step(P, st).value;
        forall s | Reaches(Machine(P), st1, s)
          ensures CallArrives(P, s, top)
        {
          ReachStep(Machine(P), st, st1);
          ReachTrans(Machine(P), st, st1, s);
        }
        ArriveAll(P, st1, n - 1, top);
      }
    }
  }

  /** Every run is, as long as its calls go through. */
  lemma {:induction false} SimulateRun(P: IrProgram, base: Base, st: State, end: State, n: nat, x: XState)
    returns (x': XState)
    requires Lowerable(P) && Match(P, base, st, x) && Run(Machine(P), st, end, n)
    requires ArriveWithin(P, st, n, base.top)
    ensures Reaches(XMachine(Lower(P)), x, x') && Match(P, base, end, x')
    decreases n
  {
    hide Lowerable, Reaches, Match, Step, CallArrives;
    if n == 0 {
      x' := x;
      ReachSelf(XMachine(Lower(P)), x);
    } else {
      var x1 := SimulateStep(P, base, st, x);
      x' := SimulateRun(P, base, Step(P, st).value, end, n - 1, x1);
      ReachTrans(XMachine(Lower(P)), x, x1, x');
    }
  }

  // ----- whole methods -----

  /** The machine stands at f's label just after a call that passed vs and will return to ret. */
  ghost predicate Called(P: IrProgram, f: string, vs: seq<Word>, x: XState, ret: int) {
    && x.pc >= 0 && IndexOf(Lower(P).code, XLabel(LFun(f))) == Some(x.pc)
    && RBP in x.regs && RSP in x.regs && x.regs[RSP] % 8 == 0 && Get(x.mem, x.regs[RSP]) == Some(ret)
    && ArgsPassed(x, x.regs[RSP] - 8, vs)
  }

  /** Back after the call: the result in rax, the stack pointer past the return address, rbp and the
      caller's memory as they were. */
  ghost predicate Back(x: XState, x': XState, ret: int, v: Option<Word>, tr: Trace) {
    && RBP in x.regs && RSP in x.regs
    && x'.pc == ret && x'.tr == tr && (v.Some? ==> Get(x'.regs, RAX) == Some(v.value as int))
    && Get(x'.regs, RSP) == Some(x.regs[RSP] + 8) && Get(x'.regs, RBP) == Some(x.regs[RBP])
    && SameAbove(x.mem, x'.mem, x.regs[RSP] + 8)
  }

  /** From a call, the prologue leads to a state that matches the method's start. */
  lemma {:induction false} StartMatches(P: IrProgram, f: string, vs: seq<Word>, x: XState, ret: int)
    returns (base: Base, x1: XState)
    requires Lowerable(P) && Start(P, f, vs, x.tr).Some? && Called(P, f, vs, x, ret) && RBP in x.regs && RSP in x.regs
    ensures base == Base(x.regs[RSP] + 8, x.regs[RBP], ret, x.mem)
    ensures Reaches(XMachine(Lower(P)), x, x1) && Match(P, base, Start(P, f, vs, x.tr).value, x1)
  {
    hide Lowerable, Reaches, Holds, Final, Address, ParamCount, ArgsPassed, Reserved, HasMethod, BindParams, Owns,
         Called, MatchRunning, StackMatch, SameAbove, Start, Emitted, EnterCode, Lower, Machine, XMachine, Step, Set;
    base := Base(x.regs[RSP] + 8, x.regs[RBP], ret, x.mem);
    StartIs(P, f, vs, x.tr);
    CalledAt(P, f, vs, x, ret);
    x1 := EnterRuns(P, f, vs, x);
    EnterEmitted(P, f);
    OutermostStack(P, base, x, x1.mem);
    CalleeStarts(P, base, f, BindParams(P.sigs[f].params, vs), NoFrame, x.tr, x1);
  }

  lemma {:induction false} StartIs(P: IrProgram, f: string, vs: seq<Word>, tr: Trace)
    requires Start(P, f, vs, tr).Some?
    ensures IEnter(f) in P.code && f in P.sigs && |P.sigs[f].params| == |vs|
    ensures Start(P, f, vs, tr).value
         == Running(f, EnterOf(P.code, f) + 1, BindParams(P.sigs[f].params, vs), [], NoFrame, tr)
  {
    hide BindParams;
  }

  lemma {:induction false} CalledAt(P: IrProgram, f: string, vs: seq<Word>, x: XState, ret: int)
    requires Called(P, f, vs, x, ret) && IEnter(f) in P.code
    ensures x.pc == Address(P, EnterOf(P.code, f)) && RBP in x.regs && RSP in x.regs && x.regs[RSP] % 8 == 0
    ensures Get(x.mem, x.regs[RSP]) == Some(ret) && ArgsPassed(x, x.regs[RSP] - 8, vs)
  {
    hide Assembly, Address, ArgsPassed;
    FindLabel(P, LFun(f));
  }

  /** The outermost frame holds the caller's rbp and the return address. */
  lemma {:induction false} OutermostStack(P: IrProgram, base: Base, x: XState, mem': Memory)
    requires RBP in x.regs && RSP in x.regs && x.regs[RSP] % 8 == 0 && Get(x.mem, x.regs[RSP]) == Some(base.ret)
    requires base.top == x.regs[RSP] + 8 && base.rbp == x.regs[RBP] && base.mem == x.mem
    requires Get(mem', x.regs[RSP] - 8) == Some(x.regs[RBP]) && SameAbove(x.mem, mem', x.regs[RSP])
    ensures StackMatch(P, base, NoFrame, x.regs[RSP] - 8, mem') && SameAbove(base.mem, mem', base.top)
  {
    hide SameAbove;
    CellsKept(x.mem, mem', x.regs[RSP]);
    OuterArithmetic(x.regs[RSP]);
    assert Get(mem', x.regs[RSP]) == Get(x.mem, x.regs[RSP]);
  }

  lemma {:induction false} OuterArithmetic(rsp: int)
    requires rsp % 8 == 0
    ensures (rsp - 8) % 8 == 0 && ((rsp + 8) % 16 == 0 ==> (rsp - 8) % 16 == 0)
  {
    assert rsp - 8 == 8 * (rsp / 8 - 1);
    if (rsp + 8) % 16 == 0 {
      assert rsp - 8 == 16 * ((rsp + 8) / 16 - 1);
    }
  }

  /** The assembly of a method does what its three-address code does, as long as the calls go through:
      called under the calling convention it returns to its caller with the same value and the same
      calls made, and with the caller's frame intact. */
  lemma {:induction false} LoweringPreservesMeaning(P: IrProgram, f: string, vs: seq<Word>, x: XState, ret: int,
                                                    v: Option<Word>, tr: Trace) returns (x': XState)
    requires Lowerable(P) && Start(P, f, vs, x.tr).Some? && Called(P, f, vs, x, ret) && RSP in x.regs
    requires CallsArrive(P, Start(P, f, vs, x.tr).value, x.regs[RSP] + 8)
    requires Reaches(Machine(P), Start(P, f, vs, x.tr).value, Halted(v, tr))
    ensures Reaches(XMachine(Lower(P)), x, x') && Back(x, x', ret, v, tr)
  {
    hide Lowerable, Start, Called, Lower, Step, Match, Back, Machine, XMachine, CallsArrive;
    var st := Start(P, f, vs, x.tr).value;
    var n: nat :| Run(Machine(P), st, Halted(v, tr), n);
    ArriveAll(P, st, n, x.regs[RSP] + 8);
    var base;
    base, x' := ReachMatched(P, f, vs, x, ret, Halted(v, tr), n);
    MatchedBack(P, f, vs, base, x, x', ret, v, tr);
  }

  lemma {:induction false} MatchedBack(P: IrProgram, f: string, vs: seq<Word>, base: Base, x: XState, x': XState,
                                       ret: int, v: Option<Word>, tr: Trace)
    requires Called(P, f, vs, x, ret) && base == Base(x.regs[RSP] + 8, x.regs[RBP], ret, x.mem)
    requires Match(P, base, Halted(v, tr), x')
    ensures Back(x, x', ret, v, tr)
  {
    hide SameAbove, ArgsPassed, Lower;
  }

  /** The run to a state of the three-address machine, in the assembly. */
  lemma {:induction false} ReachMatched(P: IrProgram, f: string, vs: seq<Word>, x: XState, ret: int, st: State, n: nat)
    returns (base: Base, x': XState)
    requires Lowerable(P) && Start(P, f, vs, x.tr).Some? && Called(P, f, vs, x, ret) && RSP in x.regs
    requires Run(Machine(P), Start(P, f, vs, x.tr).value, st, n)
    requires ArriveWithin(P, Start(P, f, vs, x.tr).value, n, x.regs[RSP] + 8)
    ensures RBP in x.regs && base == Base(x.regs[RSP] + 8, x.regs[RBP], ret, x.mem)
    ensures Reaches(XMachine(Lower(P)), x, x') && Match(P, base, st, x')
  {
    hide Lowerable, Start, Lower, Step, Match, Machine, XMachine, ArgsPassed, Reaches, Run, ArriveWithin;
    var x1;
    base, x1 := StartMatches(P, f, vs, x, ret);
    x' := SimulateRun(P, base, Start(P, f, vs, x.tr).value, st, n, x1);
    ReachTrans(XMachine(Lower(P)), x, x1, x');
  }

  // ----- the stack pointer at calls -----

  /** At a call a run reaches, the calling convention reads the arguments as Received says, and rsp is a
      multiple of 16 exactly when the outermost caller's stack pointer less 8 for every argument on the
      stack is. */
  lemma {:induction false} CallsAligned(P: IrProgram, f: string, vs: seq<Word>, x: XState, ret: int, st: State, n: nat)
    returns (x': XState)
    requires Lowerable(P) && Start(P, f, vs, x.tr).Some? && Called(P, f, vs, x, ret) && RSP in x.regs
    requires Run(Machine(P), Start(P, f, vs, x.tr).value, st, n) && AtCallOf(P, st)
    requires ArriveWithin(P, Start(P, f, vs, x.tr).value, n, x.regs[RSP] + 8)
    ensures Reaches(XMachine(Lower(P)), x, x') && 0 <= x'.pc < |Lower(P).code|
    ensures Lower(P).code[x'.pc] == XCall(P.code[st.pc].f) && RSP in x'.regs && x'.tr == st.tr
    ensures ArgValues(x', |st.pend|) == Some(Received(st.pend))
    ensures x'.regs[RSP] % 16 == 0 <==> (x.regs[RSP] + 8 - 8 * OnStack(P, st)) % 16 == 0
    ensures (x.regs[RSP] + 8) % 16 == 0 ==> (x'.regs[RSP] % 16 == 0 <==> OnStack(P, st) % 2 == 0)
  {
    hide Lowerable, Start, Lower, Step, Match, Machine, Reaches, XMachine, ArgsPassed, ArgValues, Reserved, ArgsSet,
         MatchRunning, HasMethod, StackMatch, XAt, RspOf, Run, ArriveWithin, OnStack;
    var base;
    base, x' := ReachMatched(P, f, vs, x, ret, st, n);
    CallIsSome(P, st);
    AtCall(P, base, st, x');
    FirstOf(Lower(P), x'.pc, XCall(P.code[st.pc].f));
    CallParity(P, base, st, x');
    EvenOffset(base.top, OnStack(P, st));
  }

  lemma {:induction false} EvenOffset(top: int, n: nat)
    ensures top % 16 == 0 ==> ((top - 8 * n) % 16 == 0 <==> n % 2 == 0)
  {
    assert top - 8 * n == 16 * (top / 16 - n / 2) + (top % 16 - 8 * (n % 2));
  }

  lemma {:induction false} CallIsSome(P: IrProgram, st: State)
    requires AtCallOf(P, st)
    ensures P.code[st.pc].f in P.sigs && |P.sigs[P.code[st.pc].f].params| == |st.pend|
  {
  }

  lemma {:induction false} FirstOf(X: XProgram, pc: int, i: XInstr)
    requires XAt(X, pc, [i])
    ensures 0 <= pc < |X.code| && X.code[pc] == i
  {
    assert [i][0] == i;
  }
}
