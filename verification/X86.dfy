/** The part of x86-64 the back end uses, in AT&T operand order. An undefined register or memory cell
    is absent from its map; moving an undefined value moves nothing defined, computing with one has no
    meaning. Memory is accessed in aligned 8-byte cells, and the stack is unbounded. */
module X86 {
  import opened Words
  import opened Source
  import opened Ir

  datatype Reg = RAX | RCX | RDX | RSI | RDI | R8 | R9 | RBP | RSP
  datatype Label = LNum(l: nat) | LFun(f: string) | LLeave(f: string)
  /** $v, a register, or off(%rbp). */
  datatype Opnd = Imm(v: CInt) | R(r: Reg) | Slot(off: int)
  datatype Alu = AddQ | SubQ | ImulQ | AndQ | OrQ

  datatype XInstr =
    | XMov(src: Opnd, dst: Opnd)
    | XAlu(alu: Alu, src: Opnd, reg: Reg)
    | XCqto
    | XIdiv(src: Opnd)
    | XSar(k: nat)
    | XNeg
    | XTest
    | XCmp(src: Opnd)
    | XSet(cc: BinOp)
    | XMovzb
    | XPush(src: Opnd)
    | XPop(reg: Reg)
    | XSubRsp(n: nat)
    | XAddRsp(n: nat)
    | XLabel(lab: Label)
    | XJmp(lab: Label)
    | XJz(lab: Label)
    | XCall(f: string)
    | XRet

  datatype Flags = Flags(zf: bool, sf: bool, of: bool)

  type Regs = map<Reg, int>
  type Memory = map<int, int>

  datatype XState = XState(pc: int, regs: Regs, mem: Memory, flags: Option<Flags>, tr: Trace)

  /** arity: the number of arguments each function takes; externs: the functions defined elsewhere. */
  datatype XProgram = XProgram(code: seq<XInstr>, arity: map<string, nat>, externs: set<string>,
      ext: Trace -> Option<Word>)

  predicate IsWord(v: int) {
    -TWO63 <= v < TWO63
  }

  function Read(x: XState, o: Opnd): Option<int> {
    match o
    case Imm(v) => Some(v)
    case R(r) => Get(x.regs, r)
    case Slot(off) => if RBP in x.regs then Get(x.mem, x.regs[RBP] + off) else None
  }

  /** A memory operand can be addressed. */
  predicate Reachable(x: XState, o: Opnd) {
    o.Slot? ==> RBP in x.regs && (x.regs[RBP] + o.off) % 8 == 0
  }

  function SetReg(x: XState, r: Reg, v: Option<int>): XState {
    x.(regs := Set(x.regs, r, v), pc := x.pc + 1)
  }

  /** Arithmetic: a register is set, and no later instruction may rely on the flags. */
  function Computed(x: XState, r: Reg, v: int): XState {
    SetReg(x, r, Some(v)).(flags := None)
  }

  function AluResult(op: Alu, a: Word, b: Word): (w: Word) {
    match op
    case AddQ => Wrap(a + b)
    case SubQ => Wrap(a - b)
    case ImulQ => Wrap(a * b)
    case AndQ => AndWord(a, b)
    case OrQ => OrWord(a, b)
  }

  /** cmp b, a: the flags of a - b. */
  function Compared(a: Word, b: Word): Flags {
    Flags(a == b, Wrap(a - b) < 0, Wrap(a - b) != a - b)
  }

  /** The condition a set instruction tests. */
  function Condition(cc: BinOp, fl: Flags): bool {
    match cc
    case Les => fl.sf != fl.of
    case Grt => !fl.zf && fl.sf == fl.of
    case Eq => fl.zf
    case Neq => !fl.zf
    case Leq => fl.zf || fl.sf != fl.of
    case _ => fl.sf == fl.of
  }

  /** idiv divides the 128-bit number in rdx:rax. */
  function Dividend(rdx: int, rax: int): int {
    rdx * TWO64 + rax % TWO64
  }

  function Push(x: XState, v: Option<int>, pc: int): Option<XState> {
    if RSP !in x.regs || x.regs[RSP] % 8 != 0 then None
    else
      var a := x.regs[RSP] - 8;
      Some(x.(regs := x.regs[RSP := a], mem := Set(x.mem, a, v), pc := pc))
  }

  /** Where the calling convention has argument i of a call made with stack pointer rsp: six registers in
      a fixed order, then cells upward from rsp. */
  function Argument(x: XState, rsp: int, i: nat): Option<int> {
    match i
    case 0 => Get(x.regs, RDI)
    case 1 => Get(x.regs, RSI)
    case 2 => Get(x.regs, RDX)
    case 3 => Get(x.regs, RCX)
    case 4 => Get(x.regs, R8)
    case 5 => Get(x.regs, R9)
    case _ => Get(x.mem, rsp + 8 * (i - 6))
  }

  /** The i-th argument at a call instruction. */
  function ArgValue(x: XState, i: nat): Option<int> {
    if RSP in x.regs then Argument(x, x.regs[RSP], i) else None
  }

  /** The first n arguments, when all are defined. */
  function ArgValues(x: XState, n: nat): (r: Option<seq<Word>>)
    ensures r.Some? ==> |r.value| == n && forall i :: 0 <= i < n ==> ArgValue(x, i) == Some(r.value[i])
    ensures r.None? ==> exists i :: 0 <= i < n && (ArgValue(x, i).None? || !IsWord(ArgValue(x, i).value))
  {
    if n == 0 then Some([])
    else match ArgValues(x, n - 1)
      case None => None
      case Some(vs) =>
        match ArgValue(x, n - 1)
        case None => None
        case Some(v) => if IsWord(v) then Some(vs + [v]) else None
  }

  /** Number of arguments passed on the stack. */
  function StackArgs(n: nat): nat {
    if n > 6 then n - 6 else 0
  }

  /** What an extern call with n arguments leaves: the result, rbp and rsp; the memory from its stack
      arguments up. The calling convention promises that only when rsp is a multiple of 16 at the call. */
  function ExternCall(X: XProgram, x: XState, n: nat): Option<XState> {
    if RSP !in x.regs || RBP !in x.regs || x.regs[RSP] % 16 != 0 then None
    else
      var low := x.regs[RSP] + 8 * StackArgs(n);
      Some(XState(x.pc + 1,
                  Set(map[RBP := x.regs[RBP], RSP := x.regs[RSP]], RAX, X.ext(x.tr)),
                  map a | a in x.mem && low <= a :: x.mem[a],
                  None, x.tr))
  }

  /** A call is recorded with its arguments where the calling convention puts them. */
  function Call(X: XProgram, x: XState, f: string): Option<XState> {
    if f !in X.arity then None
    else match ArgValues(x, X.arity[f])
      case None => None
      case Some(vs) =>
        var x1 := x.(tr := x.tr + [Event(f, vs)]);
        match IndexOf(X.code, XLabel(LFun(f)))
        case Some(q) => Push(x1, Some(x.pc + 1), q)
        case None => if f in X.externs then ExternCall(X, x1, |vs|) else None
  }

  function Jump(X: XProgram, x: XState, lab: Label): Option<XState> {
    match IndexOf(X.code, XLabel(lab))
    case None => None
    case Some(q) => Some(x.(pc := q))
  }

  /** An instruction that falls through to the next one. */
  predicate Falls(i: XInstr) {
    !i.XJmp? && !i.XJz? && !i.XCall? && !i.XRet?
  }

  function Effect(i: XInstr, x: XState): Option<XState> {
    match i
    case XMov(src, dst) =>
      if !Reachable(x, src) || !Reachable(x, dst) || (src.Slot? && dst.Slot?) then None
      else (match dst
            case Imm(_) => None
            case R(r) => Some(SetReg(x, r, Read(x, src)))
            case Slot(off) => Some(x.(mem := Set(x.mem, x.regs[RBP] + off, Read(x, src)), pc := x.pc + 1)))
    case XAlu(op, src, reg) =>
      (match (Read(x, src), Get(x.regs, reg))
       case (Some(b), Some(a)) =>
         if Reachable(x, src) && IsWord(a) && IsWord(b) then Some(Computed(x, reg, AluResult(op, a, b))) else None
       case _ => None)
    case XCqto =>
      if RAX in x.regs then Some(SetReg(x, RDX, Some(SignMask(x.regs[RAX])))) else None
    case XIdiv(src) =>
      if src.Imm? || RAX !in x.regs || RDX !in x.regs || !Reachable(x, src) then None
      else (match Read(x, src)
            case None => None
            case Some(b) =>
              if b == 0 then None
              else
                var a := Dividend(x.regs[RDX], x.regs[RAX]);
                if !IsWord(TruncDiv(a, b)) then None
                else
                  Some(x.(regs := x.regs[RAX := TruncDiv(a, b)][RDX := TruncMod(a, b)], flags := None, pc := x.pc + 1)))
    case XSar(k) =>
      if RAX in x.regs then Some(Computed(x, RAX, Sar(x.regs[RAX], k))) else None
    case XNeg =>
      if RAX in x.regs then Some(Computed(x, RAX, Wrap(0 - x.regs[RAX]))) else None
    case XTest =>
      if RAX in x.regs
      then Some(x.(flags := Some(Flags(x.regs[RAX] == 0, x.regs[RAX] < 0, false)), pc := x.pc + 1)) else None
    case XCmp(src) =>
      (match (Read(x, src), Get(x.regs, RAX))
       case (Some(b), Some(a)) =>
         if Reachable(x, src) && IsWord(a) && IsWord(b)
         then Some(x.(flags := Some(Compared(a, b)), pc := x.pc + 1)) else None
       case _ => None)
    case XSet(cc) =>
      // writes al, the low byte of rax
      if RAX in x.regs && x.flags.Some?
      then Some(SetReg(x, RAX, Some(x.regs[RAX] - x.regs[RAX] % 256 + BoolWord(Condition(cc, x.flags.value)))))
      else None
    case XMovzb => if RAX in x.regs then Some(SetReg(x, RAX, Some(x.regs[RAX] % 256))) else None
    case XPush(src) => if Reachable(x, src) then Push(x, Read(x, src), x.pc + 1) else None
    case XPop(reg) =>
      if RSP !in x.regs || x.regs[RSP] % 8 != 0 || reg == RSP then None
      else
        var v := Get(x.mem, x.regs[RSP]);
        Some(x.(regs := Set(x.regs[RSP := x.regs[RSP] + 8], reg, v), pc := x.pc + 1))
    case XSubRsp(n) =>
      if RSP in x.regs then Some(Computed(x, RSP, x.regs[RSP] - n)) else None
    case XAddRsp(n) =>
      if RSP in x.regs then Some(Computed(x, RSP, x.regs[RSP] + n)) else None
    case XLabel(_) => Some(x.(pc := x.pc + 1))
    case _ => None
  }

  function XStep(X: XProgram, x: XState): Option<XState> {
    if !(0 <= x.pc < |X.code|) then None
    else match X.code[x.pc]
      case XJmp(lab) => Jump(X, x, lab)
      case XJz(lab) =>
        if x.flags.None? then None
        else if x.flags.value.zf then Jump(X, x, lab) else Some(x.(pc := x.pc + 1))
      case XCall(f) => Call(X, x, f)
      case XRet =>
        if RSP !in x.regs || x.regs[RSP] % 8 != 0 || x.regs[RSP] !in x.mem then None
        else Some(x.(pc := x.mem[x.regs[RSP]], regs := x.regs[RSP := x.regs[RSP] + 8]))
      case i => Effect(i, x)
  }

  function XMachine(X: XProgram): XState -> Option<XState> {
    x => XStep(X, x)
  }

  // ----- arithmetic of single instructions -----

  /** The six set instructions after cmp decide the six comparisons, for all words. */
  lemma {:induction false} SetDecides(cc: BinOp, a: Word, b: Word)
    requires cc in {Les, Grt, Eq, Neq, Leq, Geq}
    ensures Condition(cc, Compared(a, b)) == Compare(cc, a, b)
  {
    var d := a - b;
    assert -TWO64 < d < TWO64;
    if d >= TWO63 {
      assert Wrap(d) == d - TWO64;
    } else if d < -TWO63 {
      assert Wrap(d) == d + TWO64;
    }
  }

  /** cqto followed by idiv divides the signed value of rax. */
  lemma {:induction false} SignExtended(a: Word)
    ensures Dividend(SignMask(a), a) == a
  {
  }

  /** sete/setcc on al, then movzbq, leaves the condition as 0 or 1. */
  lemma {:induction false} LowByte(v: int, b: bool)
    ensures (v - v % 256 + BoolWord(b)) % 256 == BoolWord(b)
  {
  }
}
