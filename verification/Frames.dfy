/** Stack frames: which instructions belong to which method, how the slot table of a method grows, and
    where instructions and labels lie in the assembly. */
module Frames {
  import opened Words
  import opened Source
  import opened Ir
  import opened IrLayout
  import opened X86
  import opened Lowering
  import opened ObjectCode

  // ----- methods in the code -----

  ghost predicate FrameMark(i: Instr) {
    i.IEnter? || i.ILeave? || i.IExtern?
  }

  /** Method f's code lies between its first ENTER and its first LEAVE, with no boundary between. */
  ghost predicate HasMethod(code: Code, f: string) {
    && IEnter(f) in code && ILeave(f) in code && EnterOf(code, f) < LeaveAt(code, f)
    && forall j :: EnterOf(code, f) < j < LeaveAt(code, f) ==> !FrameMark(code[j])
  }

  ghost function EnterOf(code: Code, f: string): (e: nat)
    requires IEnter(f) in code
    ensures e < |code| && code[e] == IEnter(f)
  {
    IndexOf(code, IEnter(f)).value
  }

  ghost function LeaveAt(code: Code, f: string): (l: nat)
    requires ILeave(f) in code
    ensures l < |code| && code[l] == ILeave(f)
  {
    IndexOf(code, ILeave(f)).value
  }

  /** Instruction i belongs to f: it comes after f's ENTER and not after its LEAVE. */
  ghost predicate Owns(code: Code, f: string, i: nat) {
    i < |code| && Within(code, i) == Some(f) && HasMethod(code, f) && EnterOf(code, f) < i <= LeaveAt(code, f)
  }

  ghost predicate StructuredAt(code: Code, i: nat)
    requires i < |code|
  {
    match code[i]
    case IEnter(f) => Within(code, i) == None && HasMethod(code, f) && i == EnterOf(code, f)
    case IExtern(_) => Within(code, i) == None
    case _ => Within(code, i).Some? && Owns(code, Within(code, i).value, i)
  }

  /** The code is a row of methods and EXTERN lines, one ENTER per method. */
  ghost predicate Structured(code: Code) {
    forall i :: 0 <= i < |code| ==> StructuredAt(code, i)
  }

  /** Every jump stays in its method. */
  ghost predicate JumpsLocal(code: Code) {
    forall i :: 0 <= i < |code| && (code[i].IJmp? || code[i].IJmpf?) ==> JumpLocal(code, i)
  }

  ghost predicate JumpLocal(code: Code, i: nat)
    requires i < |code| && (code[i].IJmp? || code[i].IJmpf?)
  {
    var t := IndexOf(code, ILabel(code[i].l));
    t.Some? && Within(code, t.value) == Within(code, i)
  }

  /** A PARAM run is followed by nothing but more of it and its CALL. */
  ghost predicate ParamRuns(code: Code) {
    forall i :: 0 <= i < |code| && ParamCount(code, i) > 0 ==> code[i].IParam? || code[i].ICall?
  }

  lemma {:induction false} StructuredIsShaped(code: Code)
    requires Structured(code)
    ensures Shaped(code)
  {
    hide Within, HasMethod;
    forall i | 0 <= i < |code|
      ensures ShapedAt(code, i)
    {
      assert StructuredAt(code, i);
      if code[i].ILeave? {
        OwnLeave(code, i);
      }
    }
  }

  /** A LEAVE is its method's only one. */
  lemma {:induction false} OwnLeave(code: Code, i: nat)
    requires Structured(code) && i < |code| && code[i].ILeave?
    ensures Within(code, i) == Some(code[i].f) && Owns(code, code[i].f, i) && i == LeaveAt(code, code[i].f)
  {
    hide Within;
    assert StructuredAt(code, i);
    assert i == LeaveAt(code, Within(code, i).value);
  }

  /** The instruction after one of f's, LEAVE apart, is f's too. */
  lemma {:induction false} OwnsNext(code: Code, f: string, i: nat)
    requires Structured(code) && Owns(code, f, i) && !code[i].ILeave?
    ensures Owns(code, f, i + 1) && !FrameMark(code[i])
  {
    assert i != LeaveAt(code, f);
  }

  lemma {:induction false} OwnsFirst(code: Code, f: string)
    requires Structured(code) && IEnter(f) in code
    ensures Owns(code, f, EnterOf(code, f) + 1)
  {
    assert StructuredAt(code, EnterOf(code, f));
  }

  // ----- slots -----

  /** Distinct names have distinct slots of 8 bytes, inside the first 8|m| bytes below rbp. */
  lemma {:induction false} SlotsApart(m: seq<Key>, k: Key, j: Key)
    requires k in m && j in m
    ensures SlotOf(m, k) % 8 == 0 && -8 * |m| <= SlotOf(m, k) <= -8
    ensures k != j ==> SlotOf(m, k) <= SlotOf(m, j) - 8 || SlotOf(m, j) <= SlotOf(m, k) - 8
  {
    hide IndexOf;
  }

  lemma {:induction false} SlotInPrefix(m: seq<Key>, M: seq<Key>, k: Key)
    requires m <= M && k in m
    ensures k in M && SlotOf(M, k) == SlotOf(m, k)
  {
    assert M == m + M[|m|..];
    IndexOfAppend(m, M[|m|..], k);
  }

  lemma {:induction false} AddKeysExtend(m: seq<Key>, ks: seq<Key>)
    ensures m <= AddKeys(m, ks)
    ensures forall k :: k in AddKeys(m, ks) <==> k in m || k in ks
    decreases |ks|
  {
    if ks != [] {
      AddKeysExtend(m, ks[..|ks| - 1]);
      assert ks == ks[..|ks| - 1] + [ks[|ks| - 1]];
    }
  }

  /** The texts of the operands of instructions e+1 to j-1. */
  function BodyKeys(code: Code, e: nat, j: nat): seq<Key>
    requires e < j <= |code|
    decreases j
  {
    if j == e + 1 then [] else BodyKeys(code, e, j - 1) + KeysOf(Operands(code[j - 1]))
  }

  /** Inside a method the table lists its parameters, then its operands, in order of first mention. */
  lemma {:induction false} TableInside(P: IrProgram, f: string, i: nat)
    requires Structured(P.code) && HasMethod(P.code, f) && EnterOf(P.code, f) < i <= LeaveAt(P.code, f)
    ensures Table(P, i) == AddKeys([], ParamKeys(ParamsOf(P, f)) + BodyKeys(P.code, EnterOf(P.code, f), i))
    decreases i
  {
    hide AddKeys, ParamKeys, KeysOf, Operands, Structured;
    var e := EnterOf(P.code, f);
    var ps := ParamKeys(ParamsOf(P, f));
    if i == e + 1 {
      assert ps + [] == ps;
    } else {
      TableInside(P, f, i - 1);
      assert !FrameMark(P.code[i - 1]);
      var ks, b := KeysOf(Operands(P.code[i - 1])), BodyKeys(P.code, e, i - 1);
      assert ps + (b + ks) == (ps + b) + ks;
      AddKeysAppend([], ps + b, ks);
    }
  }

  /** The slot table of a method once all its instructions have been met. */
  ghost function Final(P: IrProgram, f: string): seq<Key>
    requires HasMethod(P.code, f)
  {
    Table(P, LeaveAt(P.code, f))
  }

  lemma {:induction false} TableGrows(P: IrProgram, f: string, i: nat, j: nat)
    requires Structured(P.code) && HasMethod(P.code, f)
    requires EnterOf(P.code, f) < i <= j <= LeaveAt(P.code, f)
    ensures Table(P, i) <= Table(P, j)
    decreases j
  {
    hide AddKeys, KeysOf, Operands, Structured;
    if i < j {
      TableGrows(P, f, i, j - 1);
      assert !FrameMark(P.code[j - 1]);
      AddKeysExtend(Table(P, j - 1), KeysOf(Operands(P.code[j - 1])));
    }
  }

  /** A name keeps its slot through the method: when an instruction is lowered, each of its operands
      already has the slot it has at the end. */
  lemma {:induction false} OperandSlot(P: IrProgram, f: string, i: nat, n: Name)
    requires Structured(P.code) && Owns(P.code, f, i) && !P.code[i].ILeave? && n in Operands(P.code[i])
    ensures KeyOf(n) in Final(P, f) && SlotOf(Table(P, i + 1), KeyOf(n)) == SlotOf(Final(P, f), KeyOf(n))
  {
    hide AddKeys, Operands, Structured, SlotOf, Table;
    OwnsNext(P.code, f, i);
    TableAfter(P, f, i);
    var ks := KeysOf(Operands(P.code[i]));
    AddKeysExtend(Table(P, i), ks);
    var x :| 0 <= x < |Operands(P.code[i])| && Operands(P.code[i])[x] == n;
    assert ks[x] == KeyOf(n);
    TableGrows(P, f, i + 1, LeaveAt(P.code, f));
    SlotInPrefix(Table(P, i + 1), Final(P, f), KeyOf(n));
  }

  lemma {:induction false} TableAfter(P: IrProgram, f: string, i: nat)
    requires Structured(P.code) && Owns(P.code, f, i) && !P.code[i].ILeave?
    ensures Table(P, i + 1) == AddKeys(Table(P, i), KeysOf(Operands(P.code[i])))
  {
    hide AddKeys, Operands;
    OwnsNext(P.code, f, i);
  }

  /** The code emitted for an instruction, in terms of the final slots. */
  lemma {:induction false} EmittedFinal(P: IrProgram, f: string, i: nat)
    requires Structured(P.code) && Owns(P.code, f, i) && !P.code[i].ILeave?
    ensures Emitted(P, i) == InstrCode(P.code[i], Final(P, f), f, ParamCount(P.code, i), 0, [])
    ensures forall n :: n in Operands(P.code[i]) ==> KeyOf(n) in Final(P, f)
  {
    hide Structured, SlotOf, Table, ParamCount, FrameSize, KeyOf, Owns, BinCode, ShrCode;
    OwnsNext(P.code, f, i);
    forall n | n in Operands(P.code[i])
      ensures KeyOf(n) in Final(P, f) && Sl(Table(P, i + 1), n) == Sl(Final(P, f), n)
    {
      OperandSlot(P, f, i, n);
    }
    InsideEmitted(P, f, i);
    SameInstrCode(P.code[i], Table(P, i + 1), Final(P, f), f, ParamCount(P.code, i), FrameSize(P.code, i));
  }

  lemma {:induction false} InsideEmitted(P: IrProgram, f: string, i: nat)
    requires Owns(P.code, f, i) && !FrameMark(P.code[i])
    ensures Emitted(P, i)
         == InstrCode(P.code[i], Table(P, i + 1), f, ParamCount(P.code, i), FrameSize(P.code, i), [])
  {
    hide Table, ParamCount, FrameSize, InstrCode, Within;
  }

  lemma {:induction false} SameInstrCode(i: Instr, m: seq<Key>, M: seq<Key>, f: string, pend: nat, size: nat)
    requires !FrameMark(i) && forall n :: n in Operands(i) ==> Sl(m, n) == Sl(M, n)
    ensures InstrCode(i, m, f, pend, size, []) == InstrCode(i, M, f, pend, 0, [])
  {
    hide SlotOf, KeyOf, BinCode, ShrCode, Operands;
    OperandLists(i);
    match i
    case IStore(src, d) =>
      assert d in Operands(i) && (src.Loc? ==> src.n in Operands(i));
    case IBin(_, a, b, d) =>
      assert a in Operands(i) && b in Operands(i) && d in Operands(i);
    case IShr(a, _, d) =>
      assert a in Operands(i) && d in Operands(i);
    case IUn(op, a, d) =>
      assert a in Operands(i) && d in Operands(i);
    case ILoadVal(_, d) =>
      assert d in Operands(i);
    case ICall(_, d) =>
      assert d in Operands(i);
    case IRet(val) =>
      assert val.Some? ==> val.value in Operands(i);
    case IJmpf(a, _) =>
      assert a in Operands(i);
    case IParam(a) =>
      assert a in Operands(i);
    case _ =>
  }

  // ----- places in the assembly -----

  function Address(P: IrProgram, i: nat): nat
    requires i <= |P.code|
  {
    |Assembly(P, i)|
  }

  /** Instruction i's code stands at its address, and the next instruction's follows it. */
  lemma {:induction false} Placed(P: IrProgram, i: nat, n: nat)
    requires i < n <= |P.code|
    ensures Address(P, i + 1) == Address(P, i) + |Emitted(P, i)| <= |Assembly(P, n)|
    ensures forall j :: Address(P, i) <= j < Address(P, i + 1) ==> Assembly(P, n)[j] == Emitted(P, i)[j - Address(P, i)]
    decreases n
  {
    hide Emitted;
    if i + 1 < n {
      Placed(P, i, n - 1);
    }
  }

  /** The instruction whose code begins with the label. */
  function Marked(lab: Label): Instr {
    match lab
    case LNum(l) => ILabel(l)
    case LFun(f) => IEnter(f)
    case LLeave(f) => ILeave(f)
  }

  lemma {:induction false} ParamsUnlabelled(m: seq<Key>, xs: seq<string>, n: nat, lab: Label)
    requires n <= |xs|
    ensures XLabel(lab) !in ParamsCode(m, xs, n)
    decreases n
  {
    hide SlotOf;
    if n > 0 {
      ParamsUnlabelled(m, xs, n - 1, lab);
    }
  }

  /** An instruction's code holds a label only at its start, and exactly when it is marked with it. */
  lemma {:induction false} LabelInCode(i: Instr, m: seq<Key>, f: string, pend: nat, size: nat, xs: seq<string>,
      lab: Label)
    ensures var c := InstrCode(i, m, f, pend, size, xs);
            && (XLabel(lab) in c <==> i == Marked(lab))
            && (i == Marked(lab) ==> c[0] == XLabel(lab))
  {
    hide SlotOf, Bias, ParamsCode;
    if i.IEnter? {
      ParamsUnlabelled(m, xs, |xs|, lab);
      var a := [XLabel(LFun(i.f)), XPush(R(RBP)), XMov(R(RSP), R(RBP))];
      var b := if size > 0 then [XSubRsp(size)] else [];
      assert EnterCode(m, i.f, size, xs) == a + b + ParamsCode(m, xs, |xs|);
      assert a[0] == XLabel(LFun(i.f));
    }
  }

  lemma {:induction false} LabelInEmitted(P: IrProgram, i: nat, lab: Label)
    requires i < |P.code|
    ensures XLabel(lab) in Emitted(P, i) <==> P.code[i] == Marked(lab)
    ensures P.code[i] == Marked(lab) ==> IndexOf(Emitted(P, i), XLabel(lab)) == Some(0)
  {
    hide InstrCode, Marked, Table, FrameSize, ParamCount;
    var f := match Within(P.code, i) case Some(g) => g case None => "unknown";
    var xs := if P.code[i].IEnter? then ParamsOf(P, P.code[i].f) else [];
    LabelInCode(P.code[i], Table(P, i + 1), f, ParamCount(P.code, i), FrameSize(P.code, i), xs, lab);
  }

  /** A label of the assembly is found at the address of the instruction that carries it. */
  lemma {:induction false} LabelPlace(P: IrProgram, n: nat, lab: Label)
    requires n <= |P.code|
    ensures IndexOf(Assembly(P, n), XLabel(lab)) ==
            match IndexOf(P.code[..n], Marked(lab))
            case None => None
            case Some(q) => Some(Address(P, q))
    decreases n
  {
    hide Emitted, Marked;
    if n > 0 {
      LabelPlace(P, n - 1, lab);
      LabelInEmitted(P, n - 1, lab);
      IndexOfAppend(Assembly(P, n - 1), Emitted(P, n - 1), XLabel(lab));
      assert P.code[..n] == P.code[..n - 1] + [P.code[n - 1]];
      IndexOfAppend(P.code[..n - 1], [P.code[n - 1]], Marked(lab));
    }
  }

  lemma {:induction false} FindLabel(P: IrProgram, lab: Label)
    ensures IndexOf(Lower(P).code, XLabel(lab)) ==
            match IndexOf(P.code, Marked(lab))
            case None => None
            case Some(q) => Some(Address(P, q))
  {
    hide Marked, Assembly;
    assert P.code[..|P.code|] == P.code;
    LabelPlace(P, |P.code|, lab);
  }

  // ----- the frame -----

  /** The space below rbp that the prologue reserves for f. */
  function Reserved(P: IrProgram, f: string): (n: nat)
    requires IEnter(f) in P.code
    ensures n % 16 == 0
  {
    FrameSize(P.code, IndexOf(P.code, IEnter(f)).value)
  }

  ghost predicate FrameFits(P: IrProgram, f: string)
    requires HasMethod(P.code, f)
  {
    8 * |Final(P, f)| <= Reserved(P, f)
  }

  /** Every slot of f lies in the reserved space exactly when the reserved space holds as many slots as
      there are distinct parameters and operands. */
  lemma {:induction false} FrameFitsExactly(P: IrProgram, f: string)
    requires Structured(P.code) && HasMethod(P.code, f)
    ensures (forall k :: k in Final(P, f) ==> 0 - Reserved(P, f) <= SlotOf(Final(P, f), k)) <==> FrameFits(P, f)
    ensures Final(P, f)
         == AddKeys([], ParamKeys(ParamsOf(P, f)) + BodyKeys(P.code, EnterOf(P.code, f), LeaveAt(P.code, f)))
  {
    hide FrameSize, Table, AddKeys, IndexOf, Structured;
    TableInside(P, f, LeaveAt(P.code, f));
    var m := Final(P, f);
    forall k | k in m
      ensures -8 * |m| <= SlotOf(m, k)
    {
      SlotsApart(m, k, k);
    }
    if |m| > 0 {
      AddKeysDistinct([], ParamKeys(ParamsOf(P, f)) + BodyKeys(P.code, EnterOf(P.code, f), LeaveAt(P.code, f)));
      LastSlot(m);
    }
  }

  ghost predicate NoRepeats(m: seq<Key>) {
    forall i, j :: 0 <= i < |m| && 0 <= j < |m| && m[i] == m[j] ==> i == j
  }

  lemma {:induction false} LastSlot(m: seq<Key>)
    requires |m| > 0 && NoRepeats(m)
    ensures m[|m| - 1] in m && SlotOf(m, m[|m| - 1]) == -8 * |m|
  {
    hide IndexOf;
  }

  lemma {:induction false} AddKeysDistinct(m: seq<Key>, ks: seq<Key>)
    requires NoRepeats(m)
    ensures NoRepeats(AddKeys(m, ks))
    decreases |ks|
  {
    if ks != [] {
      AddKeysDistinct(m, ks[..|ks| - 1]);
    }
  }

  lemma {:induction false} NoLonger(m: seq<Key>, big: seq<Key>)
    requires NoRepeats(m) && forall k :: k in m ==> k in big
    ensures |m| <= |big|
    decreases |big|
  {
    if m != [] {
      var k := m[|m| - 1];
      var m0 := m[..|m| - 1];
      assert k in m;
      var i :| 0 <= i < |big| && big[i] == k;
      var big0 := big[..i] + big[i + 1..];
      forall j | j in m0
        ensures j in big0
      {
        var x :| 0 <= x < |m0| && m0[x] == j;
        assert m[x] == j && j in big;
        var y :| 0 <= y < |big| && big[y] == j;
        assert y != i;
        assert big0[if y < i then y else y - 1] == j;
      }
      NoLonger(m0, big0);
    }
  }

  lemma {:induction false} CountedOperands(i: Instr)
    ensures forall n :: n in Operands(i) ==> KeyOf(n) in SizingKeys(i)
  {
    OperandLists(i);
    var ks := KeysOf(Operands(i));
    forall n | n in Operands(i)
      ensures KeyOf(n) in SizingKeys(i)
    {
      var x :| 0 <= x < |Operands(i)| && Operands(i)[x] == n;
      assert ks[x] == KeyOf(n);
    }
  }

  lemma {:induction false} BodyCounted(code: Code, e: nat, j: nat, k: Key)
    requires e < j < |code| && k in BodyKeys(code, e, j)
    ensures k in SizingRange(code, e, j)
    decreases j
  {
    hide KeysOf, Operands, SizingKeys;
    if k in BodyKeys(code, e, j - 1) {
      BodyCounted(code, e, j - 1, k);
    } else {
      var ks := KeysOf(Operands(code[j - 1]));
      KeysOfMember(Operands(code[j - 1]), k);
      CountedOperands(code[j - 1]);
      assert k in SizingKeys(code[j - 1]);
      assert SizingRange(code, e, j) == SizingRange(code, e, j - 1) + SizingKeys(code[j]);
    }
  }

  lemma {:induction false} KeysOfMember(ns: seq<Name>, k: Key)
    requires k in KeysOf(ns)
    ensures exists n :: n in ns && KeyOf(n) == k
  {
    var x :| 0 <= x < |KeysOf(ns)| && KeysOf(ns)[x] == k;
    assert ns[x] in ns;
  }

  lemma {:induction false} BeforeFirst(code: Code, i: Instr, n: nat)
    requires i in code && n <= IndexOf(code, i).value
    ensures i !in code[..n]
  {
    assert code[..n] <= code[..IndexOf(code, i).value];
  }

  lemma {:induction false} LeaveFound(code: Code, f: string)
    requires HasMethod(code, f)
    ensures LeaveOf(code, EnterOf(code, f)) == LeaveAt(code, f)
  {
    var e := EnterOf(code, f);
    assert code == code[..e + 1] + code[e + 1..];
    BeforeFirst(code, ILeave(f), e + 1);
    IndexOfAppend(code[..e + 1], code[e + 1..], ILeave(f));
  }

  /** Every parameter of f is counted by the sizing pass. */
  ghost predicate ParamsMentioned(P: IrProgram, f: string)
    requires HasMethod(P.code, f)
  {
    forall x :: x in ParamsOf(P, f) ==> KId(x) in SizingRange(P.code, EnterOf(P.code, f), LeaveAt(P.code, f))
  }

  /** When every parameter is mentioned, every slot the second pass uses lies in the space the first
      pass reserved. */
  lemma {:induction false} MentionedFits(P: IrProgram, f: string)
    requires Structured(P.code) && HasMethod(P.code, f) && ParamsMentioned(P, f)
    ensures FrameFits(P, f)
  {
    hide Structured, IndexOf, SizingRange, BodyKeys, AddKeys, LeaveOf;
    var e, l := EnterOf(P.code, f), LeaveAt(P.code, f);
    var ps, b := ParamKeys(ParamsOf(P, f)), BodyKeys(P.code, e, l);
    var counted := SizingRange(P.code, e, l);
    TableInside(P, f, l);
    LeaveFound(P.code, f);
    AddKeysDistinct([], ps + b);
    AddKeysExtend([], ps + b);
    AddKeysExtend([], counted);
    forall k | k in Final(P, f)
      ensures k in AddKeys([], counted)
    {
      if k in ps {
        var x :| 0 <= x < |ps| && ps[x] == k;
        assert ParamsOf(P, f)[x] in ParamsOf(P, f);
      } else {
        BodyCounted(P.code, e, l, k);
      }
    }
    NoLonger(Final(P, f), AddKeys([], counted));
  }

  /** void main(integer a, integer b, integer c) { return; } */
  const UNMENTIONED := IrProgram([IEnter("main"), IRet(None), ILeave("main")],
                                 map["main" := Sig(["a", "b", "c"], false)], (_: Trace) => None)

  lemma {:induction false} UnmentionedMarks()
    ensures var code := UNMENTIONED.code;
            IndexOf(code, IEnter("main")) == Some(0) && IndexOf(code, ILeave("main")) == Some(2)
    ensures var code := UNMENTIONED.code;
            Within(code, 0) == None && Within(code, 1) == Some("main") && Within(code, 2) == Some("main")
  {
    hide IndexOf;
    IndexOfUnique(UNMENTIONED.code, IEnter("main"), 0);
    IndexOfUnique(UNMENTIONED.code, ILeave("main"), 2);
  }

  lemma {:induction false} UnmentionedShape()
    ensures var code := UNMENTIONED.code;
            Structured(code) && HasMethod(code, "main") && EnterOf(code, "main") == 0 && LeaveAt(code, "main") == 2
  {
    hide IndexOf, Within;
    UnmentionedMarks();
  }

  lemma {:induction false} UnmentionedCounted()
    ensures SizingRange(UNMENTIONED.code, 0, 2) == [KId("main"), KId("main")]
  {
    var code := UNMENTIONED.code;
    OperandLists(code[1]);
    hide Operands;
    assert SizingRange(code, 0, 0) == [KId("main")];
    assert SizingRange(code, 0, 1) == [KId("main")] + SizingKeys(code[1]) == [KId("main")];
    assert [KId("main")] + [KId("main")] == [KId("main"), KId("main")];
  }

  /** One text counted twice takes one slot, so 16 bytes are reserved. */
  lemma {:induction false} UnmentionedReserves()
    ensures IEnter("main") in UNMENTIONED.code && Reserved(UNMENTIONED, "main") <= 16
  {
    hide Structured, IndexOf, SizingRange, AddKeys, LeaveOf, Within;
    UnmentionedShape();
    UnmentionedCounted();
    LeaveFound(UNMENTIONED.code, "main");
    var twice := [KId("main"), KId("main")];
    AddKeysExtend([], twice);
    AddKeysDistinct([], twice);
    NoLonger(AddKeys([], twice), [KId("main")]);
  }

  /** Distinct parameters each take a slot. */
  lemma {:induction false} ParamsTakeSlots(P: IrProgram, f: string)
    requires Structured(P.code) && HasMethod(P.code, f) && NoRepeats(ParamKeys(ParamsOf(P, f)))
    ensures |Final(P, f)| >= |ParamsOf(P, f)|
  {
    hide Structured, IndexOf, BodyKeys, AddKeys, Table;
    var ps, b := ParamKeys(ParamsOf(P, f)), BodyKeys(P.code, EnterOf(P.code, f), LeaveAt(P.code, f));
    FrameFitsExactly(P, f);
    AddKeysExtend([], ps + b);
    forall k | k in ps
      ensures k in Final(P, f)
    {
      assert k in ps + b;
    }
    NoLonger(ps, Final(P, f));
  }

  /** A method that mentions none of its three parameters: two slots are reserved, three are used. */
  lemma {:induction false} UnmentionedOverflows()
    ensures Structured(UNMENTIONED.code) && HasMethod(UNMENTIONED.code, "main") && !FrameFits(UNMENTIONED, "main")
  {
    UnmentionedShape();
    UnmentionedReserves();
    hide Structured, HasMethod, Final, Reserved;
    assert ParamsOf(UNMENTIONED, "main") == ["a", "b", "c"];
    ParamsTakeSlots(UNMENTIONED, "main");
  }
}
