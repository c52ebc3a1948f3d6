/** Lowering of three-address code to x86-64: stack slots, frame size, and the instructions each
    three-address instruction becomes. */
module Lowering {
  import opened Words
  import opened Source
  import opened Ir
  import opened TempFlow
  import opened X86

  /** What the slot table is keyed by: the text of an operand. A method name and a variable of that
      name are one key; a negative literal is a key for the sizing pass. */
  datatype Key = KTmp(k: nat) | KId(x: string) | KLit(v: int)

  function KeyOf(n: Name): Key {
    match n
    case Tmp(k) => KTmp(k)
    case Var(x) => KId(x)
  }

  function KeysOf(ns: seq<Name>): (r: seq<Key>)
    ensures |r| == |ns| && forall i :: 0 <= i < |ns| ==> r[i] == KeyOf(ns[i])
  {
    seq(|ns|, i requires 0 <= i < |ns| => KeyOf(ns[i]))
  }

  /** The cells an instruction's code addresses, in the order the operands are formatted. */
  function Operands(i: Instr): seq<Name> {
    Reads(i) + (match Writes(i) case Some(d) => [d] case None => [])
  }

  function LitKey(v: int): seq<Key> {
    if v < 0 then [KLit(v)] else []
  }

  /** The texts the sizing pass counts: every operand that starts neither with a digit nor with '_'. */
  function SizingKeys(i: Instr): seq<Key> {
    match i
    case ILoadVal(v, d) => LitKey(v) + [KeyOf(d)]
    case ILoad(a) => [KeyOf(a)]
    case IStore(src, d) => (if src.Loc? then [KeyOf(src.n)] else LitKey(src.v)) + [KeyOf(d)]
    case ICall(f, d) => [KId(f), KeyOf(d)]
    case IEnter(f) => [KId(f)]
    case ILeave(f) => [KId(f)]
    case IExtern(f) => [KId(f)]
    case _ => KeysOf(Operands(i))
  }

  // ----- the slot table -----

  function AddKey(m: seq<Key>, k: Key): seq<Key> {
    if k in m then m else m + [k]
  }

  function AddKeys(m: seq<Key>, ks: seq<Key>): seq<Key> {
    if ks == [] then m else AddKey(AddKeys(m, ks[..|ks| - 1]), ks[|ks| - 1])
  }

  /** Offset from rbp of the slot of k: slots grow downward from -8, in table order. */
  function SlotOf(m: seq<Key>, k: Key): int {
    match IndexOf(m, k)
    case Some(i) => -8 * (i + 1)
    case None => 0
  }

  // ----- method regions -----

  /** The method whose code contains position i (strictly between its ENTER and LEAVE). */
  function Within(code: Code, i: nat): Option<string>
    requires i <= |code|
  {
    if i == 0 then None
    else match code[i - 1]
      case IEnter(f) => Some(f)
      case ILeave(_) => None
      case _ => Within(code, i - 1)
  }

  /** Length of the PARAM run open before instruction i. */
  function ParamCount(code: Code, i: nat): nat
    requires i <= |code|
  {
    if i == 0 then 0
    else match code[i - 1]
      case IParam(_) => ParamCount(code, i - 1) + 1
      case ICall(_, _) => 0
      case _ => ParamCount(code, i - 1)
  }

  /** Position of the LEAVE that ends the method entered at i; i itself when there is none. */
  function LeaveOf(code: Code, i: nat): (r: nat)
    requires i < |code|
    ensures i <= r < |code|
    ensures code[i].IEnter? && r != i ==> code[r] == ILeave(code[i].f)
  {
    if !code[i].IEnter? then i
    else match IndexOf(code[i + 1..], ILeave(code[i].f))
      case Some(j) => i + 1 + j
      case None => i
  }

  /** All texts the sizing pass counts from instruction i up to j, both included. */
  function SizingRange(code: Code, i: nat, j: nat): seq<Key>
    requires i <= j < |code|
    decreases j - i
  {
    if i == j then SizingKeys(code[i]) else SizingRange(code, i, j - 1) + SizingKeys(code[j])
  }

  function Align16(n: nat): (r: nat)
    ensures r % 16 == 0 && n <= r < n + 16
  {
    if n % 16 == 0 then n else n + (16 - n % 16)
  }

  function FrameSize(code: Code, i: nat): nat
    requires i < |code|
  {
    Align16(8 * |AddKeys([], SizingRange(code, i, LeaveOf(code, i)))|)
  }

  function ParamKeys(xs: seq<string>): (r: seq<Key>)
    ensures |r| == |xs| && forall i :: 0 <= i < |xs| ==> r[i] == KId(xs[i])
  {
    seq(|xs|, i requires 0 <= i < |xs| => KId(xs[i]))
  }

  // ----- instructions -----

  function Sl(m: seq<Key>, n: Name): Opnd {
    Slot(SlotOf(m, KeyOf(n)))
  }

  function OperandOpnd(m: seq<Key>, o: Operand): Opnd {
    match o
    case Lit(v) => Imm(v)
    case Loc(n) => Sl(m, n)
  }

  function BinCode(op: BinOp, a: Opnd, b: Opnd, d: Opnd): seq<XInstr> {
    match op
    case Add => [XMov(a, R(RAX)), XAlu(AddQ, b, RAX), XMov(R(RAX), d)]
    case Sub => [XMov(a, R(RAX)), XAlu(SubQ, b, RAX), XMov(R(RAX), d)]
    case Mul => [XMov(a, R(RAX)), XAlu(ImulQ, b, RAX), XMov(R(RAX), d)]
    case And => [XMov(a, R(RAX)), XAlu(AndQ, b, RAX), XMov(R(RAX), d)]
    case Or => [XMov(a, R(RAX)), XAlu(OrQ, b, RAX), XMov(R(RAX), d)]
    case Div => [XMov(a, R(RAX)), XCqto, XIdiv(b), XMov(R(RAX), d)]
    case Mod => [XMov(a, R(RAX)), XCqto, XIdiv(b), XMov(R(RDX), d)]
    case _ => [XMov(a, R(RAX)), XCmp(b), XSet(op), XMovzb, XMov(R(RAX), d)]
  }

  function Bias(k: nat): CInt {
    if k <= 30 then (Pow2Mono(k, 30); Pow2At63(); Pow2(k) - 1) else 0
  }

  function ShrCode(a: Opnd, k: nat, d: Opnd): seq<XInstr> {
    [XMov(a, R(RAX)), XCqto, XMov(Imm(Bias(k)), R(RCX)), XAlu(AndQ, R(RCX), RDX), XAlu(AddQ, R(RDX), RAX), XSar(k),
     XMov(R(RAX), d)]
  }

  /** The registers the back end uses for the first six arguments. */
  const ARG_REGS: seq<Reg> := [RDI, RSI, RDX, RCX, R8, R9]

  /** They are those of the calling convention, in its order, and no other argument is in a register. */
  lemma RegisterTable(x: XState, rsp: int, i: nat)
    ensures |ARG_REGS| == 6
    ensures Argument(x, rsp, i) == if i < 6 then Get(x.regs, ARG_REGS[i]) else Get(x.mem, rsp + 8 * (i - 6))
  {
  }

  /** Argument j of a method, moved into its slot. */
  function ParamCode(j: nat, off: int): seq<XInstr> {
    if j < 6 then [XMov(R(ARG_REGS[j]), Slot(off))]
    else [XMov(Slot(16 + (j - 6) * 8), R(RAX)), XMov(R(RAX), Slot(off))]
  }

  function ParamsCode(m: seq<Key>, xs: seq<string>, n: nat): seq<XInstr>
    requires n <= |xs|
  {
    if n == 0 then [] else ParamsCode(m, xs, n - 1) + ParamCode(n - 1, SlotOf(m, KId(xs[n - 1])))
  }

  function EnterCode(m: seq<Key>, f: string, size: nat, xs: seq<string>): seq<XInstr> {
    [XLabel(LFun(f)), XPush(R(RBP)), XMov(R(RSP), R(RBP))]
    + (if size > 0 then [XSubRsp(size)] else [])
    + ParamsCode(m, xs, |xs|)
  }

  /** The code of one instruction, given the slot table, the method it belongs to, the length of the
      PARAM run before it, and for ENTER the frame size and the parameters. */
  function InstrCode(i: Instr, m: seq<Key>, f: string, pend: nat, size: nat, xs: seq<string>): seq<XInstr> {
    match i
    case ILoadVal(v, d) => [XMov(Imm(v), Sl(m, d))]
    case ILoad(_) => []
    case IStore(src, d) => [XMov(OperandOpnd(m, src), R(RAX)), XMov(R(RAX), Sl(m, d))]
    case IBin(op, a, b, d) => BinCode(op, Sl(m, a), Sl(m, b), Sl(m, d))
    case IShr(a, k, d) => ShrCode(Sl(m, a), k, Sl(m, d))
    case IUn(Minus, a, d) => [XMov(Sl(m, a), R(RAX)), XNeg, XMov(R(RAX), Sl(m, d))]
    case IUn(Neg, a, d) => [XMov(Sl(m, a), R(RAX)), XTest, XSet(Eq), XMovzb, XMov(R(RAX), Sl(m, d))]
    case IRet(None) => [XJmp(LLeave(f))]
    case IRet(Some(a)) => [XMov(Sl(m, a), R(RAX)), XJmp(LLeave(f))]
    case ILabel(l) => [XLabel(LNum(l))]
    case IJmp(l) => [XJmp(LNum(l))]
    case IJmpf(a, l) => [XMov(Sl(m, a), R(RAX)), XTest, XJz(LNum(l))]
    case IParam(a) => if pend < 6 then [XMov(Sl(m, a), R(ARG_REGS[pend]))] else [XPush(Sl(m, a))]
    case ICall(g, d) =>
      [XCall(g), XMov(R(RAX), Sl(m, d))] + (if StackArgs(pend) > 0 then [XAddRsp(8 * StackArgs(pend))] else [])
    case IEnter(g) => EnterCode(m, g, size, xs)
    case ILeave(g) => [XLabel(LLeave(g)), XMov(R(RBP), R(RSP)), XPop(RBP), XRet]
    case IExtern(_) => []
  }

  // ----- the pass, with the slot table growing as operands are met -----

  /** The slot table after the first i instructions: reset by ENTER, which adds the parameters, and by
      LEAVE; extended by the operands of every instruction. */
  function Table(P: IrProgram, i: nat): seq<Key>
    requires i <= |P.code|
  {
    if i == 0 then []
    else match P.code[i - 1]
      case IEnter(f) => AddKeys([], ParamKeys(ParamsOf(P, f)))
      case ILeave(_) => []
      case ins => AddKeys(Table(P, i - 1), KeysOf(Operands(ins)))
  }

  function ParamsOf(P: IrProgram, f: string): seq<string> {
    if f in P.sigs then P.sigs[f].params else []
  }

  /** The code of instruction i as the pass emits it, with the table as it is after i's operands. */
  function Emitted(P: IrProgram, i: nat): seq<XInstr>
    requires i < |P.code|
  {
    var f := match Within(P.code, i) case Some(g) => g case None => "unknown";
    var xs := if P.code[i].IEnter? then ParamsOf(P, P.code[i].f) else [];
    InstrCode(P.code[i], Table(P, i + 1), f, ParamCount(P.code, i), FrameSize(P.code, i), xs)
  }

  /** The assembly of the first i instructions. */
  function Assembly(P: IrProgram, i: nat): seq<XInstr>
    requires i <= |P.code|
  {
    if i == 0 then [] else Assembly(P, i - 1) + Emitted(P, i - 1)
  }

  function Arity(P: IrProgram): map<string, nat> {
    map f | f in P.sigs :: |P.sigs[f].params|
  }

  function Externs(P: IrProgram): set<string> {
    set f | f in P.sigs && P.sigs[f].isExtern
  }

  function Lower(P: IrProgram): XProgram {
    XProgram(Assembly(P, |P.code|), Arity(P), Externs(P), P.ext)
  }
}
