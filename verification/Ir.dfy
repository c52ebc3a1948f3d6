/** Three-address code and the machine that runs it. */
module Ir {
  import opened Words
  import opened Source

  /** A cell name: the temporary $Tk, or a program variable. */
  datatype Name = Tmp(k: nat) | Var(x: string)
  datatype Operand = Lit(v: CInt) | Loc(n: Name)

  datatype Instr =
    | ILoadVal(v: CInt, reg: Name)
    | ILoad(var1: Name)
    | IStore(src: Operand, reg: Name)
    | IBin(op: BinOp, var1: Name, var2: Name, reg: Name)
    | IShr(var1: Name, k: nat, reg: Name)
    | IUn(uop: UnOp, var1: Name, reg: Name)
    | IRet(val: Option<Name>)
    | ILabel(l: nat)
    | IJmp(l: nat)
    | IJmpf(var1: Name, l: nat)
    | IParam(var1: Name)
    | ICall(f: string, reg: Name)
    | IEnter(f: string)
    | ILeave(f: string)
    | IExtern(f: string)

  type Code = seq<Instr>
  type Store = map<Name, Word>

  datatype Sig = Sig(params: seq<string>, isExtern: bool)

  /** The code, what the back end reads of each method's declaration, and the extern methods. */
  datatype IrProgram = IrProgram(code: Code, sigs: map<string, Sig>, ext: Trace -> Option<Word>)

  /** The position of the first occurrence. */
  function IndexOf<T(==)>(s: seq<T>, x: T): (r: Option<nat>)
    ensures r.Some? ==> r.value < |s| && s[r.value] == x && x !in s[..r.value]
    ensures r.None? <==> x !in s
  {
    if s == [] then None
    else if s[0] == x then Some(0)
    else
      var r := IndexOf(s[1..], x);
      assert s == [s[0]] + s[1..];
      match r
      case None => None
      case Some(i) =>
        assert s[..i + 1] == [s[0]] + s[1..][..i];
        Some(i + 1)
  }

  /** The one position of x, when x occurs once. */
  lemma IndexOfUnique<T>(s: seq<T>, x: T, i: nat)
    requires i < |s| && s[i] == x
    requires forall j :: 0 <= j < |s| && s[j] == x ==> j == i
    ensures IndexOf(s, x) == Some(i)
  {
  }

  datatype Frame = Frame(f: string, pc: nat, store: Store, reg: Name)
  datatype Stack = NoFrame | Push(top: Frame, rest: Stack)

  /** pend holds the values of the PARAM instructions run since the last CALL. */
  datatype State =
    | Running(f: string, pc: nat, store: Store, pend: seq<Word>, stack: Stack, tr: Trace)
    | Halted(v: Option<Word>, tr: Trace)

  /** AND and OR are bitwise, as andq and orq are. */
  function IrApply(op: BinOp, a: Word, b: Word): Option<Word> {
    match op
    case And => Some(AndWord(a, b))
    case Or => Some(OrWord(a, b))
    case _ => Apply(op, a, b)
  }

  function OperandValue(s: Store, o: Operand): Option<Word> {
    match o
    case Lit(v) => Some(v as Word)
    case Loc(n) => Get(s, n)
  }

  function BindParams(xs: seq<string>, vs: seq<Word>): (s: Store)
    requires |xs| == |vs|
  {
    if xs == [] then map[]
    else BindParams(xs[..|xs| - 1], vs[..|vs| - 1])[Var(xs[|xs| - 1]) := vs[|vs| - 1]]
  }

  /** Leaving a method: the caller's frame resumes with the result in its cell. */
  function PopFrame(v: Option<Word>, stack: Stack, tr: Trace): State {
    match stack
    case NoFrame => Halted(v, tr)
    case Push(fr, rest) => Running(fr.f, fr.pc, Set(fr.store, fr.reg, v), [], rest, tr)
  }

  /** Entering a method, or the answer of an extern one. */
  function CallStep(P: IrProgram, f: string, reg: Name, st: State): Option<State>
    requires st.Running?
  {
    if f !in P.sigs || |P.sigs[f].params| != |st.pend| then None
    else
      var tr1 := st.tr + [Event(f, st.pend)];
      if P.sigs[f].isExtern then
        Some(st.(pc := st.pc + 1, store := Set(st.store, reg, P.ext(tr1)), pend := [], tr := tr1))
      else match IndexOf(P.code, IEnter(f))
        case None => None
        case Some(q) =>
          Some(Running(f, q + 1, BindParams(P.sigs[f].params, st.pend), [],
                       Push(Frame(st.f, st.pc + 1, st.store, reg), st.stack), tr1))
  }

  /** One instruction; None when it has no meaning. */
  function Step(P: IrProgram, st: State): Option<State> {
    if st.Halted? || st.pc >= |P.code| then None
    else
      var next := st.(pc := st.pc + 1);
      match P.code[st.pc]
      case ILoadVal(v, d) => Some(next.(store := st.store[d := v as Word]))
      case ILoad(_) => Some(next)
      case IStore(src, d) => Some(next.(store := Set(st.store, d, OperandValue(st.store, src))))
      case IBin(op, a, b, d) =>
        if a !in st.store || b !in st.store then None
        else (match IrApply(op, st.store[a], st.store[b])
              case None => None
              case Some(w) => Some(next.(store := st.store[d := w])))
      case IShr(a, k, d) =>
        if a !in st.store || k > 30 then None
        else
          ShiftIsTruncDiv(st.store[a], k);
          Pow2Small(k);
          TruncDivFits(st.store[a], Pow2(k));
          Some(next.(store := st.store[d := ShiftDivide(st.store[a], k)]))
      case IUn(op, a, d) =>
        if a !in st.store then None else Some(next.(store := st.store[d := ApplyUn(op, st.store[a])]))
      case IRet(val) =>
        Some(PopFrame(if val.None? then None else Get(st.store, val.value), st.stack, st.tr))
      case ILabel(_) => Some(next)
      case IJmp(l) =>
        (match IndexOf(P.code, ILabel(l))
         case None => None
         case Some(q) => Some(st.(pc := q)))
      case IJmpf(c, l) =>
        if c !in st.store then None
        else if st.store[c] != 0 then Some(next)
        else (match IndexOf(P.code, ILabel(l))
              case None => None
              case Some(q) => Some(st.(pc := q)))
      case IParam(a) => if a !in st.store then None else Some(next.(pend := st.pend + [st.store[a]]))
      case ICall(f, d) => CallStep(P, f, d, st)
      case IEnter(_) => None
      case ILeave(_) => Some(PopFrame(None, st.stack, st.tr))
      case IExtern(_) => None
  }

  /** The machine as a step function. */
  function Machine(P: IrProgram): State -> Option<State> {
    st => Step(P, st)
  }

  /** The state in which a method starts when nothing called it. */
  function Start(P: IrProgram, f: string, vs: seq<Word>, tr: Trace): Option<State> {
    if f !in P.sigs || P.sigs[f].isExtern || |P.sigs[f].params| != |vs| then None
    else match IndexOf(P.code, IEnter(f))
      case None => None
      case Some(q) => Some(Running(f, q + 1, BindParams(P.sigs[f].params, vs), [], NoFrame, tr))
  }
}

/** One more instruction at the end of a run, instruction by instruction. */
module IrRuns {
  import opened Words
  import opened Source
  import opened Ir
  import opened Runs

  ghost predicate Next(P: IrProgram, st: State, i: Instr) {
    st.Running? && st.pc < |P.code| && P.code[st.pc] == i
  }

  lemma RunLoadVal(P: IrProgram, a: State, st: State, v: CInt, d: Name)
    requires Reaches(Machine(P), a, st) && Next(P, st, ILoadVal(v, d))
    ensures Reaches(Machine(P), a, st.(pc := st.pc + 1, store := st.store[d := v as Word]))
  {
    hide Reaches;
    ReachMore(Machine(P), a, st, st.(pc := st.pc + 1, store := st.store[d := v as Word]));
  }

  lemma RunLoad(P: IrProgram, a: State, st: State, n: Name)
    requires Reaches(Machine(P), a, st) && Next(P, st, ILoad(n))
    ensures Reaches(Machine(P), a, st.(pc := st.pc + 1))
  {
    hide Reaches;
    ReachMore(Machine(P), a, st, st.(pc := st.pc + 1));
  }

  lemma RunStore(P: IrProgram, a: State, st: State, src: Operand, d: Name, v: Option<Word>)
    requires Reaches(Machine(P), a, st) && Next(P, st, IStore(src, d)) && OperandValue(st.store, src) == v
    ensures Reaches(Machine(P), a, st.(pc := st.pc + 1, store := Set(st.store, d, v)))
  {
    hide Reaches;
    ReachMore(Machine(P), a, st, st.(pc := st.pc + 1, store := Set(st.store, d, v)));
  }

  lemma RunBin(P: IrProgram, a: State, st: State, op: BinOp, x: Name, y: Name, d: Name, v: Word)
    requires Reaches(Machine(P), a, st) && Next(P, st, IBin(op, x, y, d))
    requires x in st.store && y in st.store && IrApply(op, st.store[x], st.store[y]) == Some(v)
    ensures Reaches(Machine(P), a, st.(pc := st.pc + 1, store := st.store[d := v]))
  {
    hide Reaches;
    ReachMore(Machine(P), a, st, st.(pc := st.pc + 1, store := st.store[d := v]));
  }

  lemma RunShr(P: IrProgram, a: State, st: State, x: Name, k: nat, d: Name, v: Word)
    requires Reaches(Machine(P), a, st) && Next(P, st, IShr(x, k, d))
    requires x in st.store && k <= 30 && ShiftDivide(st.store[x], k) == v
    ensures Reaches(Machine(P), a, st.(pc := st.pc + 1, store := st.store[d := v]))
  {
    hide Reaches;
    ReachMore(Machine(P), a, st, st.(pc := st.pc + 1, store := st.store[d := v]));
  }

  lemma RunUn(P: IrProgram, a: State, st: State, op: UnOp, x: Name, d: Name)
    requires Reaches(Machine(P), a, st) && Next(P, st, IUn(op, x, d)) && x in st.store
    ensures Reaches(Machine(P), a, st.(pc := st.pc + 1, store := st.store[d := ApplyUn(op, st.store[x])]))
  {
    hide Reaches;
    ReachMore(Machine(P), a, st, st.(pc := st.pc + 1, store := st.store[d := ApplyUn(op, st.store[x])]));
  }

  lemma RunRet(P: IrProgram, a: State, st: State, val: Option<Name>, v: Option<Word>)
    requires Reaches(Machine(P), a, st) && Next(P, st, IRet(val))
    requires v == if val.None? then None else Get(st.store, val.value)
    ensures Reaches(Machine(P), a, PopFrame(v, st.stack, st.tr))
  {
    hide Reaches;
    ReachMore(Machine(P), a, st, PopFrame(v, st.stack, st.tr));
  }

  lemma RunLeave(P: IrProgram, a: State, st: State, f: string)
    requires Reaches(Machine(P), a, st) && Next(P, st, ILeave(f))
    ensures Reaches(Machine(P), a, PopFrame(None, st.stack, st.tr))
  {
    hide Reaches;
    ReachMore(Machine(P), a, st, PopFrame(None, st.stack, st.tr));
  }

  lemma RunLabel(P: IrProgram, a: State, st: State, l: nat)
    requires Reaches(Machine(P), a, st) && Next(P, st, ILabel(l))
    ensures Reaches(Machine(P), a, st.(pc := st.pc + 1))
  {
    hide Reaches;
    ReachMore(Machine(P), a, st, st.(pc := st.pc + 1));
  }

  lemma RunJmp(P: IrProgram, a: State, st: State, l: nat, q: nat)
    requires Reaches(Machine(P), a, st) && Next(P, st, IJmp(l)) && IndexOf(P.code, ILabel(l)) == Some(q)
    ensures Reaches(Machine(P), a, st.(pc := q))
  {
    hide Reaches;
    ReachMore(Machine(P), a, st, st.(pc := q));
  }

  lemma RunJmpf(P: IrProgram, a: State, st: State, c: Name, l: nat, q: nat)
    requires Reaches(Machine(P), a, st) && Next(P, st, IJmpf(c, l)) && IndexOf(P.code, ILabel(l)) == Some(q)
    requires c in st.store
    ensures Reaches(Machine(P), a, st.(pc := if st.store[c] != 0 then st.pc + 1 else q))
  {
    hide Reaches;
    ReachMore(Machine(P), a, st, st.(pc := if st.store[c] != 0 then st.pc + 1 else q));
  }

  lemma RunParam(P: IrProgram, a: State, st: State, x: Name)
    requires Reaches(Machine(P), a, st) && Next(P, st, IParam(x)) && x in st.store
    ensures Reaches(Machine(P), a, st.(pc := st.pc + 1, pend := st.pend + [st.store[x]]))
  {
    hide Reaches;
    ReachMore(Machine(P), a, st, st.(pc := st.pc + 1, pend := st.pend + [st.store[x]]));
  }

  lemma RunCall(P: IrProgram, st: State, f: string, d: Name, st': State)
    requires Next(P, st, ICall(f, d)) && CallStep(P, f, d, st) == Some(st')
    ensures Reaches(Machine(P), st, st')
  {
    hide Reaches;
    ReachStep(Machine(P), st, st');
  }
}
