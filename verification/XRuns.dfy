/** What each emitted instruction sequence does to the x86 machine, for all operand values. */
module XRuns {
  import opened Words
  import opened Source
  import opened Ir
  import opened Runs
  import opened X86
  import opened Lowering

  ghost predicate XAt(X: XProgram, pc: int, frag: seq<XInstr>) {
    0 <= pc && pc + |frag| <= |X.code| && forall j :: pc <= j < pc + |frag| ==> X.code[j] == frag[j - pc]
  }

  /** One more instruction at the end of a run. */
  lemma {:induction false} XNext(X: XProgram, a: XState, x: XState, i: XInstr, x': XState)
    requires Reaches(XMachine(X), a, x)
    requires 0 <= x.pc < |X.code| && X.code[x.pc] == i && Falls(i) && Effect(i, x) == Some(x')
    ensures Reaches(XMachine(X), a, x')
  {
    hide Reaches, Effect;
    ReachMore(XMachine(X), a, x, x');
  }

  /** One more instruction that is not a plain one. */
  lemma {:induction false} XMore(X: XProgram, a: XState, x: XState, x': XState)
    requires Reaches(XMachine(X), a, x) && XStep(X, x) == Some(x')
    ensures Reaches(XMachine(X), a, x')
  {
    hide Reaches, XStep;
    ReachMore(XMachine(X), a, x, x');
  }

  /** rbp and rsp are defined and rbp is aligned. */
  ghost predicate Framed(x: XState) {
    RBP in x.regs && RSP in x.regs && x.regs[RBP] % 8 == 0
  }

  predicate Offset(off: int) {
    off % 8 == 0
  }

  /** The cell at off(%rbp). */
  function Cell(x: XState, off: int): Option<int> {
    if RBP in x.regs then Get(x.mem, x.regs[RBP] + off) else None
  }

  /** n instructions later: cell off holds v, nothing else in memory has changed, nor have rbp, rsp and
      the events. */
  ghost predicate Stored(x: XState, x': XState, n: nat, off: int, v: Option<int>) {
    && Framed(x) && Framed(x')
    && x'.pc == x.pc + n && x'.tr == x.tr
    && x'.regs[RBP] == x.regs[RBP] && x'.regs[RSP] == x.regs[RSP]
    && x'.mem == Set(x.mem, x.regs[RBP] + off, v)
  }

  lemma {:induction false} RunLoadImm(X: XProgram, x: XState, v: CInt, off: int) returns (x': XState)
    requires XAt(X, x.pc, [XMov(Imm(v), Slot(off))]) && Framed(x) && Offset(off)
    ensures Reaches(XMachine(X), x, x') && Stored(x, x', 1, off, Some(v))
  {
    hide Reaches;
    ReachSelf(XMachine(X), x);
    x' := x.(mem := Set(x.mem, x.regs[RBP] + off, Some(v as int)), pc := x.pc + 1);
    assert X.code[x.pc + 0] == XMov(Imm(v), Slot(off));
    XNext(X, x, x, XMov(Imm(v), Slot(off)), x');
  }

  /** The last instruction of most sequences: a register goes to its cell. */
  lemma {:induction false} Finish(X: XProgram, x: XState, x1: XState, n: nat, r: Reg, off: int) returns (x': XState)
    requires Reaches(XMachine(X), x, x1) && Framed(x) && Framed(x1) && Offset(off)
    requires 0 <= x1.pc < |X.code| && X.code[x1.pc] == XMov(R(r), Slot(off))
    requires x1.pc == x.pc + n && x1.tr == x.tr && x1.mem == x.mem
    requires x1.regs[RBP] == x.regs[RBP] && x1.regs[RSP] == x.regs[RSP]
    ensures Reaches(XMachine(X), x, x') && Stored(x, x', n + 1, off, Get(x1.regs, r))
    ensures x'.regs == x1.regs
  {
    hide Reaches;
    x' := x1.(mem := Set(x1.mem, x1.regs[RBP] + off, Get(x1.regs, r)), pc := x1.pc + 1);
    XNext(X, x, x1, XMov(R(r), Slot(off)), x');
  }

  /** The first instruction of most sequences: an operand goes to rax. */
  lemma {:induction false} Begin(X: XProgram, x: XState, src: Opnd) returns (x1: XState)
    requires 0 <= x.pc < |X.code| && X.code[x.pc] == XMov(src, R(RAX)) && Framed(x)
    requires src.Slot? ==> Offset(src.off)
    ensures Reaches(XMachine(X), x, x1) && x1 == SetReg(x, RAX, Read(x, src))
  {
    hide Reaches;
    ReachSelf(XMachine(X), x);
    x1 := SetReg(x, RAX, Read(x, src));
    XNext(X, x, x, XMov(src, R(RAX)), x1);
  }

  lemma {:induction false} RunCopy(X: XProgram, x: XState, src: Opnd, off: int) returns (x': XState)
    requires XAt(X, x.pc, [XMov(src, R(RAX)), XMov(R(RAX), Slot(off))]) && Framed(x) && Offset(off)
    requires src.Slot? ==> Offset(src.off)
    ensures Reaches(XMachine(X), x, x') && Stored(x, x', 2, off, Read(x, src))
    ensures forall r :: r != RAX ==> Get(x'.regs, r) == Get(x.regs, r)
  {
    hide Reaches;
    assert X.code[x.pc + 0] == XMov(src, R(RAX));
    var x1 := Begin(X, x, src);
    assert X.code[x.pc + 1] == XMov(R(RAX), Slot(off));
    x' := Finish(X, x, x1, 1, RAX, off);
  }

  lemma {:induction false} RunAlu(X: XProgram, x: XState, alu: Alu, p: int, q: int, off: int, a: Word, b: Word)
    returns (x': XState)
    requires XAt(X, x.pc, [XMov(Slot(p), R(RAX)), XAlu(alu, Slot(q), RAX), XMov(R(RAX), Slot(off))])
    requires Framed(x) && Offset(p) && Offset(q) && Offset(off) && Cell(x, p) == Some(a) && Cell(x, q) == Some(b)
    ensures Reaches(XMachine(X), x, x') && Stored(x, x', 3, off, Some(AluResult(alu, a, b)))
  {
    hide Reaches, AluResult;
    assert X.code[x.pc + 0] == XMov(Slot(p), R(RAX));
    var x1 := Begin(X, x, Slot(p));
    assert X.code[x.pc + 1] == XAlu(alu, Slot(q), RAX);
    var x2 := Computed(x1, RAX, AluResult(alu, a, b));
    XNext(X, x, x1, XAlu(alu, Slot(q), RAX), x2);
    assert X.code[x.pc + 2] == XMov(R(RAX), Slot(off));
    x' := Finish(X, x, x2, 2, RAX, off);
  }

  /** idiv leaves the quotient in rax and the remainder in rdx. */
  lemma {:induction false} RunIdiv(X: XProgram, x: XState, p: int, q: int, a: Word, b: Word) returns (x3: XState)
    requires XAt(X, x.pc, [XMov(Slot(p), R(RAX)), XCqto, XIdiv(Slot(q))])
    requires Framed(x) && Offset(p) && Offset(q) && Cell(x, p) == Some(a) && Cell(x, q) == Some(b)
    requires b != 0 && !(a == -TWO63 && b == -1)
    ensures Reaches(XMachine(X), x, x3)
    ensures x3 == x.(regs := x.regs[RAX := TruncDiv(a, b)][RDX := TruncMod(a, b)], flags := None, pc := x.pc + 3)
  {
    hide Reaches, TruncDiv, TruncMod, Dividend;
    assert X.code[x.pc + 0] == XMov(Slot(p), R(RAX));
    var x1 := Begin(X, x, Slot(p));
    assert X.code[x.pc + 1] == XCqto;
    var x2 := SetReg(x1, RDX, Some(SignMask(a)));
    XNext(X, x, x1, XCqto, x2);
    assert X.code[x.pc + 2] == XIdiv(Slot(q));
    SignExtended(a);
    TruncDivFits(a, b);
    x3 := x2.(regs := x2.regs[RAX := TruncDiv(a, b)][RDX := TruncMod(a, b)], flags := None, pc := x2.pc + 1);
    XNext(X, x, x2, XIdiv(Slot(q)), x3);
    assert x3.regs == x.regs[RAX := TruncDiv(a, b)][RDX := TruncMod(a, b)];
  }

  lemma {:induction false} RunDivide(X: XProgram, x: XState, op: BinOp, p: int, q: int, off: int, a: Word, b: Word)
    returns (x': XState)
    requires op == Div || op == Mod
    requires XAt(X, x.pc, BinCode(op, Slot(p), Slot(q), Slot(off)))
    requires Framed(x) && Offset(p) && Offset(q) && Offset(off) && Cell(x, p) == Some(a) && Cell(x, q) == Some(b)
    requires b != 0 && !(a == -TWO63 && b == -1)
    ensures Reaches(XMachine(X), x, x')
    ensures Stored(x, x', 4, off, Some(if op == Div then TruncDiv(a, b) else TruncMod(a, b)))
  {
    hide Reaches, TruncDiv, TruncMod, Dividend;
    forall i | 0 <= i < 3
      ensures X.code[x.pc + i] == [XMov(Slot(p), R(RAX)), XCqto, XIdiv(Slot(q))][i]
    {
      assert BinCode(op, Slot(p), Slot(q), Slot(off))[i] == [XMov(Slot(p), R(RAX)), XCqto, XIdiv(Slot(q))][i];
    }
    var x3 := RunIdiv(X, x, p, q, a, b);
    assert X.code[x.pc + 3] == BinCode(op, Slot(p), Slot(q), Slot(off))[3];
    x' := Finish(X, x, x3, 3, if op == Div then RAX else RDX, off);
  }

  lemma {:induction false} RunCompare(X: XProgram, x: XState, op: BinOp, p: int, q: int, off: int, a: Word, b: Word)
    returns (x': XState)
    requires op in {Les, Grt, Eq, Neq, Leq, Geq}
    requires XAt(X, x.pc, [XMov(Slot(p), R(RAX)), XCmp(Slot(q)), XSet(op), XMovzb, XMov(R(RAX), Slot(off))])
    requires Framed(x) && Offset(p) && Offset(q) && Offset(off) && Cell(x, p) == Some(a) && Cell(x, q) == Some(b)
    ensures Reaches(XMachine(X), x, x') && Stored(x, x', 5, off, Some(BoolWord(Compare(op, a, b))))
  {
    hide Reaches, Compared, Condition, Compare;
    assert X.code[x.pc + 0] == XMov(Slot(p), R(RAX));
    var x1 := Begin(X, x, Slot(p));
    assert X.code[x.pc + 1] == XCmp(Slot(q));
    var x2 := x1.(flags := Some(Compared(a, b)), pc := x1.pc + 1);
    XNext(X, x, x1, XCmp(Slot(q)), x2);
    SetDecides(op, a, b);
    x' := RunFlag(X, x, x2, 2, op, off, Compare(op, a, b));
  }

  /** A condition becomes the 0 or 1 in a cell. */
  lemma {:induction false} RunFlag(X: XProgram, x: XState, x2: XState, n: nat, op: BinOp, off: int, c: bool)
    returns (x': XState)
    requires Reaches(XMachine(X), x, x2) && Framed(x) && Framed(x2) && Offset(off) && RAX in x2.regs
    requires 0 <= x2.pc && x2.pc + 2 < |X.code| && X.code[x2.pc] == XSet(op) && X.code[x2.pc + 1] == XMovzb
    requires X.code[x2.pc + 2] == XMov(R(RAX), Slot(off))
    requires x2.flags.Some? && Condition(op, x2.flags.value) == c
    requires x2.pc == x.pc + n && x2.tr == x.tr && x2.mem == x.mem
    requires x2.regs[RBP] == x.regs[RBP] && x2.regs[RSP] == x.regs[RSP]
    ensures Reaches(XMachine(X), x, x') && Stored(x, x', n + 3, off, Some(BoolWord(c)))
  {
    hide Reaches, Condition;
    var x3 := SetReg(x2, RAX, Some(x2.regs[RAX] - x2.regs[RAX] % 256 + BoolWord(c)));
    XNext(X, x, x2, XSet(op), x3);
    LowByte(x2.regs[RAX], c);
    var x4 := SetReg(x3, RAX, Some(BoolWord(c) as int));
    XNext(X, x, x3, XMovzb, x4);
    x' := Finish(X, x, x4, n + 2, RAX, off);
  }

  lemma {:induction false} RunNot(X: XProgram, x: XState, p: int, off: int, a: Word) returns (x': XState)
    requires XAt(X, x.pc, [XMov(Slot(p), R(RAX)), XTest, XSet(Eq), XMovzb, XMov(R(RAX), Slot(off))])
    requires Framed(x) && Offset(p) && Offset(off) && Cell(x, p) == Some(a)
    ensures Reaches(XMachine(X), x, x') && Stored(x, x', 5, off, Some(ApplyUn(Neg, a)))
  {
    hide Reaches, Wrap;
    assert X.code[x.pc + 0] == XMov(Slot(p), R(RAX));
    var x1 := Begin(X, x, Slot(p));
    assert X.code[x.pc + 1] == XTest && X.code[x.pc + 2] == XSet(Eq);
    var x2 := RunTestq(X, x, x1, a);
    assert X.code[x.pc + 3] == XMovzb && X.code[x.pc + 4] == XMov(R(RAX), Slot(off));
    x' := RunFlag(X, x, x2, 2, Eq, off, a == 0);
  }

  /** testq: the zero flag tells whether rax is zero. */
  lemma {:induction false} RunTestq(X: XProgram, x: XState, x1: XState, a: Word) returns (x2: XState)
    requires Reaches(XMachine(X), x, x1) && 0 <= x1.pc < |X.code| && X.code[x1.pc] == XTest
    requires Get(x1.regs, RAX) == Some(a)
    ensures Reaches(XMachine(X), x, x2) && x2.flags.Some? && x2.flags.value.zf == (a == 0)
    ensures x2 == x1.(flags := x2.flags, pc := x1.pc + 1)
  {
    hide Reaches;
    x2 := x1.(flags := Some(Flags(a == 0, a < 0, false)), pc := x1.pc + 1);
    XNext(X, x, x1, XTest, x2);
  }

  lemma {:induction false} RunMinus(X: XProgram, x: XState, p: int, off: int, a: Word) returns (x': XState)
    requires XAt(X, x.pc, [XMov(Slot(p), R(RAX)), XNeg, XMov(R(RAX), Slot(off))])
    requires Framed(x) && Offset(p) && Offset(off) && Cell(x, p) == Some(a)
    ensures Reaches(XMachine(X), x, x') && Stored(x, x', 3, off, Some(ApplyUn(Minus, a)))
  {
    hide Reaches;
    assert X.code[x.pc + 0] == XMov(Slot(p), R(RAX));
    var x1 := Begin(X, x, Slot(p));
    assert X.code[x.pc + 1] == XNeg;
    var x2 := Computed(x1, RAX, ApplyUn(Minus, a));
    XNext(X, x, x1, XNeg, x2);
    assert X.code[x.pc + 2] == XMov(R(RAX), Slot(off));
    x' := Finish(X, x, x2, 2, RAX, off);
  }

  /** The bias is a word, and the shift of the biased dividend is the machine's shifted division. */
  lemma {:induction false} ShiftParts(a: Word, k: nat)
    requires k <= 30
    ensures IsWord(Bias(k)) && IsWord(SignMask(a)) && Bias(k) == Pow2(k) - 1
    ensures ShiftDivide(a, k) == Sar(AluResult(AddQ, a, AluResult(AndQ, SignMask(a), Bias(k))), k)
  {
    hide AndWord, Sar, Pow2;
    Pow2Mono(k, 30);
    Pow2At63();
  }

  lemma {:induction false} ShiftPlaces(X: XProgram, pc: int, p: int, k: nat, off: int)
    requires XAt(X, pc, ShrCode(Slot(p), k, Slot(off)))
    ensures 0 <= pc && pc + 6 < |X.code| && X.code[pc] == XMov(Slot(p), R(RAX)) && X.code[pc + 1] == XCqto
    ensures X.code[pc + 2] == XMov(Imm(Bias(k)), R(RCX)) && X.code[pc + 3] == XAlu(AndQ, R(RCX), RDX)
    ensures X.code[pc + 4] == XAlu(AddQ, R(RDX), RAX) && X.code[pc + 5] == XSar(k)
    ensures X.code[pc + 6] == XMov(R(RAX), Slot(off))
  {
    hide Bias;
  }

  lemma {:induction false} RunShift(X: XProgram, x: XState, p: int, k: nat, off: int, a: Word) returns (x': XState)
    requires XAt(X, x.pc, ShrCode(Slot(p), k, Slot(off))) && k <= 30
    requires Framed(x) && Offset(p) && Offset(off) && Cell(x, p) == Some(a)
    ensures Reaches(XMachine(X), x, x') && Stored(x, x', 7, off, Some(ShiftDivide(a, k)))
  {
    hide Reaches, AluResult, Bias, Sar, ShiftDivide, XAt, ShrCode;
    ShiftParts(a, k);
    ShiftPlaces(X, x.pc, p, k, off);
    var x1 := Begin(X, x, Slot(p));
    var x2 := SetReg(x1, RDX, Some(SignMask(a)));
    XNext(X, x, x1, XCqto, x2);
    var x3 := SetReg(x2, RCX, Some(Bias(k) as int));
    XNext(X, x, x2, XMov(Imm(Bias(k)), R(RCX)), x3);
    x' := RunBiased(X, x, x3, k, off, a, SignMask(a), Bias(k));
  }

  lemma {:induction false} RunBiased(X: XProgram, x: XState, x3: XState, k: nat, off: int, a: Word, m: Word, b: Word)
    returns (x': XState)
    requires Reaches(XMachine(X), x, x3) && Framed(x) && Framed(x3) && Offset(off)
    requires 0 <= x3.pc && x3.pc + 3 < |X.code| && X.code[x3.pc] == XAlu(AndQ, R(RCX), RDX)
    requires X.code[x3.pc + 1] == XAlu(AddQ, R(RDX), RAX) && X.code[x3.pc + 2] == XSar(k)
    requires X.code[x3.pc + 3] == XMov(R(RAX), Slot(off))
    requires Get(x3.regs, RAX) == Some(a) && Get(x3.regs, RDX) == Some(m) && Get(x3.regs, RCX) == Some(b)
    requires x3.pc == x.pc + 3 && x3.tr == x.tr && x3.mem == x.mem
    requires x3.regs[RBP] == x.regs[RBP] && x3.regs[RSP] == x.regs[RSP]
    ensures Reaches(XMachine(X), x, x')
    ensures Stored(x, x', 7, off, Some(Sar(AluResult(AddQ, a, AluResult(AndQ, m, b)), k)))
  {
    hide Reaches, AluResult, Sar;
    var x4 := Computed(x3, RDX, AluResult(AndQ, m, b));
    XNext(X, x, x3, XAlu(AndQ, R(RCX), RDX), x4);
    var x5 := Computed(x4, RAX, AluResult(AddQ, a, AluResult(AndQ, m, b)));
    XNext(X, x, x4, XAlu(AddQ, R(RDX), RAX), x5);
    var x6 := Computed(x5, RAX, Sar(AluResult(AddQ, a, AluResult(AndQ, m, b)), k));
    XNext(X, x, x5, XSar(k), x6);
    x' := Finish(X, x, x6, 6, RAX, off);
  }

  /** The code of a binary operator computes it: the value the three-address machine gives. */
  lemma {:induction false} RunBinary(X: XProgram, x: XState, op: BinOp, p: int, q: int, off: int, a: Word, b: Word)
    returns (x': XState)
    requires XAt(X, x.pc, BinCode(op, Slot(p), Slot(q), Slot(off))) && IrApply(op, a, b).Some?
    requires Framed(x) && Offset(p) && Offset(q) && Offset(off) && Cell(x, p) == Some(a) && Cell(x, q) == Some(b)
    ensures Reaches(XMachine(X), x, x')
    ensures Stored(x, x', |BinCode(op, Slot(p), Slot(q), Slot(off))|, off, Some(IrApply(op, a, b).value as int))
  {
    hide Reaches, XAt, Stored, TruncDiv, TruncMod, AndWord, OrWord, Compare, Wrap, Framed, Cell, Offset;
    match op
    case Add => x' := RunAlu(X, x, AddQ, p, q, off, a, b);
    case Sub => x' := RunAlu(X, x, SubQ, p, q, off, a, b);
    case Mul => x' := RunAlu(X, x, ImulQ, p, q, off, a, b);
    case And => x' := RunAlu(X, x, AndQ, p, q, off, a, b);
    case Or => x' := RunAlu(X, x, OrQ, p, q, off, a, b);
    case Div => x' := RunDivide(X, x, op, p, q, off, a, b);
    case Mod => x' := RunDivide(X, x, op, p, q, off, a, b);
    case _ => x' := RunCompare(X, x, op, p, q, off, a, b);
  }

  /** movq, testq, jz: on to the next instruction exactly when the cell is not zero. */
  lemma {:induction false} RunJumpIfZero(X: XProgram, x: XState, p: int, a: Word, l: nat, q: int) returns (x': XState)
    requires XAt(X, x.pc, [XMov(Slot(p), R(RAX)), XTest, XJz(LNum(l))])
    requires Framed(x) && Offset(p) && Cell(x, p) == Some(a) && q >= 0 && IndexOf(X.code, XLabel(LNum(l))) == Some(q)
    ensures Reaches(XMachine(X), x, x')
    ensures x'.pc == (if a != 0 then x.pc + 3 else q) && x'.tr == x.tr && x'.mem == x.mem
    ensures Get(x'.regs, RBP) == Get(x.regs, RBP) && Get(x'.regs, RSP) == Get(x.regs, RSP)
  {
    hide Reaches, IndexOf;
    assert X.code[x.pc + 0] == XMov(Slot(p), R(RAX));
    var x1 := Begin(X, x, Slot(p));
    assert X.code[x.pc + 1] == XTest && X.code[x.pc + 2] == XJz(LNum(l));
    var x2 := RunTestq(X, x, x1, a);
    x' := x2.(pc := if a != 0 then x2.pc + 1 else q);
    XMore(X, x, x2, x');
  }
}
