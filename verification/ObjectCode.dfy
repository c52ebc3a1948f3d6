/** The object code generator as it runs: one loop over the instructions, a slot table that grows as
    operands are met, and a counter of the parameters set so far. */
module ObjectCode {
  import opened Words
  import opened Source
  import opened Ir
  import opened X86
  import opened Lowering

  datatype VarLocation = VarLocation(name: Key, offset: int)

  /** Methods are closed and do not nest, and nothing but EXTERN stands between them. */
  ghost predicate Shaped(code: Code) {
    forall i :: 0 <= i < |code| ==> ShapedAt(code, i)
  }

  ghost predicate ShapedAt(code: Code, i: nat)
    requires i < |code|
  {
    match code[i]
    case IEnter(_) => Within(code, i) == None
    case IExtern(_) => Within(code, i) == None
    case ILeave(f) => Within(code, i) == Some(f)
    case _ => Within(code, i).Some?
  }

  // ----- the table -----

  lemma {:induction false} AddKeysOne(m: seq<Key>, k: Key)
    ensures AddKeys(m, [k]) == AddKey(m, k)
  {
    assert [k][..0] == [];
  }

  lemma {:induction false} AddKeysSnoc(m: seq<Key>, ks: seq<Key>, k: Key)
    ensures AddKeys(m, ks + [k]) == AddKey(AddKeys(m, ks), k)
  {
    assert (ks + [k])[..|ks|] == ks;
  }

  lemma {:induction false} IndexOfSnoc(m: seq<Key>, k: Key, j: Key)
    requires j in m || j == k
    ensures IndexOf(m + [k], j) == if j in m then IndexOf(m, j) else Some(|m|)
    decreases |m|
  {
    if m == [] {
      assert m + [k] == [k];
    } else {
      assert (m + [k])[1..] == m[1..] + [k];
      assert m == [m[0]] + m[1..];
      if m[0] != j {
        IndexOfSnoc(m[1..], k, j);
      }
    }
  }

  /** A key keeps its slot when the table grows. */
  lemma {:induction false} SlotKept(m: seq<Key>, k: Key, j: Key)
    ensures k in AddKey(m, k)
    ensures j in m ==> j in AddKey(m, k) && SlotOf(AddKey(m, k), j) == SlotOf(m, j)
  {
    if k !in m && j in m {
      IndexOfSnoc(m, k, j);
    }
  }

  class ObjectGenerator {
    const P: IrProgram
    var varMap: seq<VarLocation>
    var currentStackOffset: int
    var paramCount: nat
    var stackParams: nat
    var out: seq<XInstr>

    ghost function Keys(): (r: seq<Key>)
      reads this
      ensures |r| == |varMap| && forall i :: 0 <= i < |varMap| ==> r[i] == varMap[i].name
    {
      seq(|varMap|, i requires 0 <= i < |varMap| reads this => varMap[i].name)
    }

    /** Slots are 8 bytes each, downward, in table order. */
    ghost predicate Laid()
      reads this
    {
      forall i :: 0 <= i < |varMap| ==> varMap[i].offset == -8 * (i + 1)
    }

    ghost predicate Valid()
      reads this
    {
      Laid() && currentStackOffset == -8 * |varMap|
    }

    constructor (P: IrProgram)
      ensures this.P == P && varMap == [] && currentStackOffset == 0
      ensures paramCount == 0 && stackParams == 0 && out == []
    {
      this.P := P;
      varMap, currentStackOffset, paramCount, stackParams, out := [], 0, 0, 0, [];
    }

    /** The slot of a name, allocated at its first use. */
    method GetVarOffset(name: Key) returns (offset: int)
      requires Valid()
      modifies this`varMap, this`currentStackOffset
      ensures Valid() && Keys() == AddKey(old(Keys()), name) && offset == SlotOf(Keys(), name)
    {
      var i := 0;
      while i < |varMap|
        invariant 0 <= i <= |varMap| && varMap == old(varMap) && currentStackOffset == old(currentStackOffset)
        invariant forall j :: 0 <= j < i ==> Keys()[j] != name
      {
        if varMap[i].name == name {
          FirstIndex(Keys(), name, i);
          return varMap[i].offset;
        }
        i := i + 1;
      }
      ghost var m := Keys();
      currentStackOffset := currentStackOffset - 8;
      varMap := varMap + [VarLocation(name, currentStackOffset)];
      offset := currentStackOffset;
      assert Keys() == m + [name];
      IndexOfSnoc(m, name, name);
    }

    method Operand(n: Name) returns (o: Opnd)
      requires Valid()
      modifies this`varMap, this`currentStackOffset
      ensures Valid() && Keys() == AddKey(old(Keys()), KeyOf(n)) && o == Sl(Keys(), n)
    {
      var offset := GetVarOffset(KeyOf(n));
      o := Slot(offset);
    }

    method Operands1(a: Name) returns (o: Opnd)
      requires Valid()
      modifies this`varMap, this`currentStackOffset
      ensures Valid() && Keys() == AddKeys(old(Keys()), KeysOf([a])) && o == Sl(Keys(), a)
    {
      o := Operand(a);
      assert KeysOf([a]) == [KeyOf(a)];
      AddKeysOne(old(Keys()), KeyOf(a));
    }

    method Operands2(a: Name, d: Name) returns (o: Opnd, p: Opnd)
      requires Valid()
      modifies this`varMap, this`currentStackOffset
      ensures Valid() && Keys() == AddKeys(old(Keys()), KeysOf([a, d]))
      ensures o == Sl(Keys(), a) && p == Sl(Keys(), d)
    {
      o := Operands1(a);
      ghost var m := Keys();
      p := Operand(d);
      SlotKept(m, KeyOf(d), KeyOf(a));
      AddKeysHolds(old(Keys()), KeysOf([a]), KeyOf(a));
      assert KeysOf([a, d]) == KeysOf([a]) + [KeyOf(d)];
      AddKeysSnoc(old(Keys()), KeysOf([a]), KeyOf(d));
    }

    method Operands3(a: Name, b: Name, d: Name) returns (o: Opnd, p: Opnd, q: Opnd)
      requires Valid()
      modifies this`varMap, this`currentStackOffset
      ensures Valid() && Keys() == AddKeys(old(Keys()), KeysOf([a, b, d]))
      ensures o == Sl(Keys(), a) && p == Sl(Keys(), b) && q == Sl(Keys(), d)
    {
      hide AddKeys, AddKey, SlotOf, KeyOf;
      o, p := Operands2(a, b);
      ghost var m := Keys();
      q := Operand(d);
      SlotKept(m, KeyOf(d), KeyOf(a));
      SlotKept(m, KeyOf(d), KeyOf(b));
      assert KeysOf([a, b])[0] == KeyOf(a) && KeysOf([a, b])[1] == KeyOf(b);
      AddKeysHolds(old(Keys()), KeysOf([a, b]), KeyOf(a));
      AddKeysHolds(old(Keys()), KeysOf([a, b]), KeyOf(b));
      assert KeysOf([a, b, d]) == KeysOf([a, b]) + [KeyOf(d)];
      AddKeysSnoc(old(Keys()), KeysOf([a, b]), KeyOf(d));
    }

    /** A slot for each text in turn. */
    method AllocateAll(ks: seq<Key>)
      requires Valid()
      modifies this`varMap, this`currentStackOffset
      ensures Valid() && Keys() == AddKeys(old(Keys()), ks)
    {
      hide AddKeys, SlotOf;
      var j := 0;
      AddKeysNone(Keys());
      assert ks[..0] == [];
      while j < |ks|
        invariant 0 <= j <= |ks| && Valid() && Keys() == AddKeys(old(Keys()), ks[..j])
      {
        var _ := GetVarOffset(ks[j]);
        AddKeysSnoc(old(Keys()), ks[..j], ks[j]);
        assert ks[..j + 1] == ks[..j] + [ks[j]];
        j := j + 1;
      }
      assert ks[..j] == ks;
    }

    /** First pass over a method: allocate a slot for every counted text, to learn the frame size. */
    method SizeFrame(i: nat) returns (size: nat)
      requires i < |P.code|
      modifies this`varMap, this`currentStackOffset
      ensures Valid() && varMap == [] && size == FrameSize(P.code, i)
    {
      hide AddKeys, SizingKeys, LeaveOf, SizingRange;
      varMap, currentStackOffset := [], 0;
      var end := LeaveOf(P.code, i);
      assert Keys() == [];
      AllocateAll(SizingKeys(P.code[i]));
      SizingOne(P.code, i);
      var k := i + 1;
      while k <= end
        invariant i < k <= end + 1 && Valid()
        invariant Keys() == AddKeys([], SizingRange(P.code, i, k - 1))
      {
        SizingMore(P.code, i, k);
        AllocateAll(SizingKeys(P.code[k]));
        k := k + 1;
      }
      size := -currentStackOffset;
      if size % 16 != 0 {
        size := size + (16 - size % 16);
      }
      varMap, currentStackOffset := [], 0;
    }

    /** The prologue's argument moves; parameters get the first slots. */
    method MoveArguments(xs: seq<string>) returns (c: seq<XInstr>)
      requires Valid() && varMap == []
      modifies this`varMap, this`currentStackOffset
      ensures Valid() && Keys() == AddKeys([], ParamKeys(xs)) && c == ParamsCode(Keys(), xs, |xs|)
    {
      hide AddKeys, SlotOf, ParamCode;
      c := [];
      var j := 0;
      AddKeysNone([]);
      assert Keys() == [] && ParamKeys(xs)[..0] == [];
      while j < |xs|
        invariant 0 <= j <= |xs| && Valid()
        invariant Keys() == AddKeys([], ParamKeys(xs)[..j]) && c == ParamsCode(Keys(), xs, j)
      {
        ghost var m := Keys();
        var offset := GetVarOffset(KId(xs[j]));
        ParamsCodeMore(m, xs, j);
        c := c + ParamCode(j, offset);
        j := j + 1;
      }
      assert ParamKeys(xs)[..j] == ParamKeys(xs);
    }

    /** The method a RET returns from: the nearest ENTER above it. */
    method EnclosingMethod(i: nat) returns (f: string)
      requires i < |P.code| && Within(P.code, i).Some? && !P.code[i].IEnter?
      ensures Some(f) == Within(P.code, i)
    {
      f := "unknown";
      var j := i;
      while j >= 0
        invariant -1 <= j <= i
        invariant j >= 0 ==> Within(P.code, j) == Within(P.code, i) && !P.code[j].IEnter?
        invariant j >= 0
        decreases j
      {
        var k := j - 1;
        if P.code[k].IEnter? {
          f := P.code[k].f;
          return;
        }
        j := k;
      }
    }

    method EmitEnter(i: nat)
      requires i < |P.code| && P.code[i].IEnter?
      modifies this
      ensures Valid() && Keys() == Table(P, i + 1) && paramCount == old(paramCount) && stackParams == old(stackParams)
      ensures out == old(out) + Emitted(P, i)
    {
      hide FrameSize, Within;
      var f := P.code[i].f;
      var size := SizeFrame(i);
      var xs := if f in P.sigs then P.sigs[f].params else [];
      var moves := MoveArguments(xs);
      out := out + ([XLabel(LFun(f)), XPush(R(RBP)), XMov(R(RSP), R(RBP))]
                    + (if size > 0 then [XSubRsp(size)] else [])
                    + moves);
    }

    /** The arithmetic, logical and relational instructions: left to rax, operate, rax to the cell. */
    method EmitBinary(i: nat)
      requires i < |P.code| && Valid() && Keys() == Table(P, i) && Inside(P, i) && P.code[i].IBin?
      modifies this`varMap, this`currentStackOffset, this`out
      ensures Valid() && Keys() == Table(P, i + 1) && out == old(out) + Emitted(P, i)
    {
      EmittedInside(P, i);
      OperandLists(P.code[i]);
      hide Table, Emitted, FrameSize, AddKeys, SlotOf, Within, ParamCount, Operands, BinCode;
      var o, p, q := Operands3(P.code[i].var1, P.code[i].var2, P.code[i].reg);
      out := out + BinCode(P.code[i].op, o, p, q);
    }

    /** LOADVAL and STORE: a store goes through rax. */
    method EmitMove(i: nat)
      requires i < |P.code| && Valid() && Keys() == Table(P, i) && Inside(P, i)
      requires P.code[i].ILoadVal? || P.code[i].IStore?
      modifies this`varMap, this`currentStackOffset, this`out
      ensures Valid() && Keys() == Table(P, i + 1) && out == old(out) + Emitted(P, i)
    {
      hide Table, Emitted, FrameSize, AddKeys, SlotOf, Within, ParamCount, Operands, InstrCode, Sl, KeyOf, KeysOf;
      EmittedInside(P, i);
      OperandLists(P.code[i]);
      EmittedMove(P, i);
      match P.code[i]
      case ILoadVal(v, d) =>
        var q := Operands1(d);
        out := out + [XMov(Imm(v), q)];
      case IStore(Lit(v), d) =>
        var q := Operands1(d);
        out := out + [XMov(Imm(v), R(RAX)), XMov(R(RAX), q)];
      case IStore(Loc(n), d) =>
        var o, q := Operands2(n, d);
        out := out + [XMov(o, R(RAX)), XMov(R(RAX), q)];
    }

    /** The minus sign and the negation. */
    method EmitUnary(i: nat)
      requires i < |P.code| && Valid() && Keys() == Table(P, i) && Inside(P, i) && P.code[i].IUn?
      modifies this`varMap, this`currentStackOffset, this`out
      ensures Valid() && Keys() == Table(P, i + 1) && out == old(out) + Emitted(P, i)
    {
      EmittedInside(P, i);
      OperandLists(P.code[i]);
      hide Table, Emitted, FrameSize, AddKeys, SlotOf, Within, ParamCount, Operands;
      var o, q := Operands2(P.code[i].var1, P.code[i].reg);
      if P.code[i].uop == Minus {
        out := out + [XMov(o, R(RAX)), XNeg, XMov(R(RAX), q)];
      } else {
        out := out + [XMov(o, R(RAX)), XTest, XSet(Eq), XMovzb, XMov(R(RAX), q)];
      }
    }

    method EmitShift(i: nat)
      requires i < |P.code| && Valid() && Keys() == Table(P, i) && Inside(P, i) && P.code[i].IShr?
      modifies this`varMap, this`currentStackOffset, this`out
      ensures Valid() && Keys() == Table(P, i + 1) && out == old(out) + Emitted(P, i)
    {
      EmittedInside(P, i);
      OperandLists(P.code[i]);
      hide Table, Emitted, FrameSize, AddKeys, SlotOf, Within, ParamCount, Operands, ShrCode;
      var o, q := Operands2(P.code[i].var1, P.code[i].reg);
      out := out + ShrCode(o, P.code[i].k, q);
    }

    /** An instruction that computes into a cell. */
    method EmitData(i: nat)
      requires i < |P.code| && Valid() && Keys() == Table(P, i) && Inside(P, i) && Computes(P.code[i])
      modifies this`varMap, this`currentStackOffset, this`out
      ensures Valid() && Keys() == Table(P, i + 1) && out == old(out) + Emitted(P, i)
    {
      hide Table, Emitted, Inside, AddKeys;
      if P.code[i].IBin? {
        EmitBinary(i);
      } else if P.code[i].IShr? {
        EmitShift(i);
      } else if P.code[i].IUn? {
        EmitUnary(i);
      } else {
        EmitMove(i);
      }
    }

    /** A label, a jump, or a LOAD, which emits nothing. */
    method EmitControl(i: nat)
      requires i < |P.code| && Valid() && Keys() == Table(P, i) && Inside(P, i) && Steers(P.code[i])
      modifies this`varMap, this`currentStackOffset, this`out
      ensures Valid() && Keys() == Table(P, i + 1) && out == old(out) + Emitted(P, i)
    {
      EmittedInside(P, i);
      OperandLists(P.code[i]);
      AddKeysNone(Keys());
      EmittedControl(P, i);
      hide Table, Emitted, FrameSize, AddKeys, SlotOf, Within, ParamCount, Operands, InstrCode, Sl, KeyOf, KeysOf;
      match P.code[i]
      case ILoad(_) =>
        assert out + [] == out;
      case ILabel(l) =>
        out := out + [XLabel(LNum(l))];
      case IJmp(l) =>
        out := out + [XJmp(LNum(l))];
      case IJmpf(a, l) =>
        var o := Operands1(a);
        out := out + [XMov(o, R(RAX)), XTest, XJz(LNum(l))];
    }

    /** RET: the value to rax, and on to the epilogue of the method it belongs to. */
    method EmitReturn(i: nat)
      requires i < |P.code| && Valid() && Keys() == Table(P, i) && Inside(P, i) && P.code[i].IRet?
      modifies this`varMap, this`currentStackOffset, this`out
      ensures Valid() && Keys() == Table(P, i + 1) && out == old(out) + Emitted(P, i)
    {
      EmittedInside(P, i);
      OperandLists(P.code[i]);
      AddKeysNone(Keys());
      EmittedReturn(P, i);
      hide Table, Emitted, FrameSize, AddKeys, SlotOf, Within, ParamCount, Operands, InstrCode, Sl, KeyOf, KeysOf;
      var f := EnclosingMethod(i);
      match P.code[i].val
      case None =>
        out := out + [XJmp(LLeave(f))];
      case Some(a) =>
        var o := Operands1(a);
        out := out + [XMov(o, R(RAX)), XJmp(LLeave(f))];
    }

    /** PARAM: the first six go to registers, the rest are pushed as they come. */
    method EmitParam(i: nat)
      requires i < |P.code| && Valid() && Keys() == Table(P, i) && Inside(P, i) && P.code[i].IParam?
      requires paramCount == ParamCount(P.code, i) && stackParams == StackArgs(paramCount)
      modifies this
      ensures Valid() && Keys() == Table(P, i + 1) && out == old(out) + Emitted(P, i)
      ensures paramCount == ParamCount(P.code, i + 1) && stackParams == StackArgs(paramCount)
    {
      hide Table, Emitted, FrameSize, AddKeys, SlotOf, Within, Operands, ParamCount, InstrCode, Sl, KeyOf, KeysOf;
      EmittedInside(P, i);
      OperandLists(P.code[i]);
      EmittedParam(P, i);
      var o := Operands1(P.code[i].var1);
      if paramCount < 6 {
        out := out + [XMov(o, R(ARG_REGS[paramCount]))];
      } else {
        out := out + [XPush(o)];
        stackParams := stackParams + 1;
      }
      paramCount := paramCount + 1;
    }

    /** CALL: the result is stored, then the pushed arguments are dropped and both counters start again. */
    method EmitCall(i: nat)
      requires i < |P.code| && Valid() && Keys() == Table(P, i) && Inside(P, i) && P.code[i].ICall?
      requires paramCount == ParamCount(P.code, i) && stackParams == StackArgs(paramCount)
      modifies this
      ensures Valid() && Keys() == Table(P, i + 1) && out == old(out) + Emitted(P, i)
      ensures paramCount == ParamCount(P.code, i + 1) && stackParams == StackArgs(paramCount)
    {
      hide Table, Emitted, FrameSize, AddKeys, SlotOf, Within, Operands, ParamCount, InstrCode, Sl, KeyOf, KeysOf;
      EmittedInside(P, i);
      OperandLists(P.code[i]);
      EmittedCall(P, i);
      var q := Operands1(P.code[i].reg);
      var c := [XCall(P.code[i].f), XMov(R(RAX), q)];
      if stackParams > 0 {
        c := c + [XAddRsp(8 * stackParams)];
      }
      out := out + c;
      paramCount := 0;
      stackParams := 0;
    }

    /** One instruction. */
    method EmitInstruction(i: nat)
      requires i < |P.code| && ShapedAt(P.code, i) && Keys() == Table(P, i)
      requires paramCount == ParamCount(P.code, i) && stackParams == StackArgs(paramCount)
      requires if Within(P.code, i).Some? then Valid() else varMap == []
      modifies this
      ensures Keys() == Table(P, i + 1) && out == old(out) + Emitted(P, i)
      ensures paramCount == ParamCount(P.code, i + 1) && stackParams == StackArgs(paramCount)
      ensures if Within(P.code, i + 1).Some? then Valid() else varMap == []
    {
      hide Emitted, FrameSize, AddKeys;
      if P.code[i].IEnter? {
        EmitEnter(i);
      } else if P.code[i].ILeave? {
        EmittedLeave(P, i);
        out := out + [XLabel(LLeave(P.code[i].f)), XMov(R(RBP), R(RSP)), XPop(RBP), XRet];
        varMap := [];
      } else if P.code[i].IExtern? {
        EmittedExtern(P, i);
        assert out + [] == out;
        AddKeysNone(Keys());
      } else if P.code[i].IParam? {
        EmitParam(i);
      } else if P.code[i].ICall? {
        EmitCall(i);
      } else if Computes(P.code[i]) {
        EmitData(i);
      } else if P.code[i].IRet? {
        EmitReturn(i);
      } else {
        EmitControl(i);
      }
    }

    /** The generator emits exactly the assembly the lowering function describes. */
    method GenerateObjectCode()
      requires Shaped(P.code)
      requires varMap == [] && paramCount == 0 && stackParams == 0 && out == []
      modifies this
      ensures out == Lower(P).code
    {
      hide Emitted, Within, ParamCount, Table, ShapedAt;
      PassStart(P);
      var i := 0;
      assert Keys() == [];
      while i < |P.code|
        invariant 0 <= i <= |P.code|
        invariant out == Assembly(P, i) && Keys() == Table(P, i)
        invariant paramCount == ParamCount(P.code, i) && stackParams == StackArgs(paramCount)
        invariant if Within(P.code, i).Some? then Valid() else varMap == []
      {
        EmitInstruction(i);
        i := i + 1;
      }
    }
  }

  /** Instruction i stands between an ENTER and its LEAVE. */
  ghost predicate Inside(P: IrProgram, i: nat)
    requires i < |P.code|
  {
    Within(P.code, i).Some? && !P.code[i].IEnter? && !P.code[i].ILeave? && !P.code[i].IExtern?
  }

  predicate Computes(i: Instr) {
    i.ILoadVal? || i.IStore? || i.IBin? || i.IShr? || i.IUn?
  }

  ghost predicate Steers(i: Instr) {
    i.ILoad? || i.ILabel? || i.IJmp? || i.IJmpf?
  }

  lemma {:induction false} PassStart(P: IrProgram)
    ensures Table(P, 0) == [] && ParamCount(P.code, 0) == 0 && Within(P.code, 0) == None
  {
  }

  lemma {:induction false} OperandLists(i: Instr)
    ensures Operands(i) == match i
                           case ILoadVal(_, d) => [d]
                           case ILoad(_) => []
                           case IStore(src, d) => if src.Loc? then [src.n, d] else [d]
                           case IBin(_, a, b, d) => [a, b, d]
                           case IShr(a, _, d) => [a, d]
                           case IUn(_, a, d) => [a, d]
                           case IRet(val) => if val.Some? then [val.value] else []
                           case IJmpf(a, _) => [a]
                           case IParam(a) => [a]
                           case ICall(_, d) => [d]
                           case _ => []
  {
  }

  /** What the pass does at an instruction inside a method. */
  lemma {:induction false} EmittedInside(P: IrProgram, i: nat)
    requires i < |P.code| && Inside(P, i)
    ensures Table(P, i + 1) == AddKeys(Table(P, i), KeysOf(Operands(P.code[i])))
    ensures Emitted(P, i)
         == InstrCode(P.code[i], Table(P, i + 1), Within(P.code, i).value, ParamCount(P.code, i),
                      FrameSize(P.code, i), [])
    ensures ParamCount(P.code, i + 1)
         == if P.code[i].IParam? then ParamCount(P.code, i) + 1
            else if P.code[i].ICall? then 0 else ParamCount(P.code, i)
    ensures Within(P.code, i + 1) == Within(P.code, i)
  {
    hide FrameSize, AddKeys, SlotOf, Operands, InstrCode;
  }

  lemma {:induction false} EmittedCall(P: IrProgram, i: nat)
    requires i < |P.code| && Inside(P, i) && P.code[i].ICall?
    ensures var c := [XCall(P.code[i].f), XMov(R(RAX), Sl(Table(P, i + 1), P.code[i].reg))];
            var k := StackArgs(ParamCount(P.code, i));
            Emitted(P, i) == if k > 0 then c + [XAddRsp(8 * k)] else c
  {
    hide Table, ParamCount, Within, FrameSize, SlotOf;
    EmittedInside(P, i);
    var c := [XCall(P.code[i].f), XMov(R(RAX), Sl(Table(P, i + 1), P.code[i].reg))];
    assert c + [] == c;
  }

  lemma {:induction false} EmittedMove(P: IrProgram, i: nat)
    requires i < |P.code| && Inside(P, i) && (P.code[i].ILoadVal? || P.code[i].IStore?)
    ensures var m := Table(P, i + 1);
            Emitted(P, i) == match P.code[i]
                             case ILoadVal(v, d) => [XMov(Imm(v), Sl(m, d))]
                             case IStore(Lit(v), d) => [XMov(Imm(v), R(RAX)), XMov(R(RAX), Sl(m, d))]
                             case IStore(Loc(n), d) => [XMov(Sl(m, n), R(RAX)), XMov(R(RAX), Sl(m, d))]
  {
    hide Table, Within, FrameSize, SlotOf, ParamCount;
    EmittedInside(P, i);
  }

  lemma {:induction false} EmittedControl(P: IrProgram, i: nat)
    requires i < |P.code| && Inside(P, i) && Steers(P.code[i])
    ensures Emitted(P, i) == match P.code[i]
                             case ILoad(_) => []
                             case ILabel(l) => [XLabel(LNum(l))]
                             case IJmp(l) => [XJmp(LNum(l))]
                             case IJmpf(a, l) => [XMov(Sl(Table(P, i + 1), a), R(RAX)), XTest, XJz(LNum(l))]
  {
    hide Table, Within, FrameSize, SlotOf, ParamCount;
    EmittedInside(P, i);
  }

  lemma {:induction false} EmittedReturn(P: IrProgram, i: nat)
    requires i < |P.code| && Inside(P, i) && P.code[i].IRet?
    ensures var m, f := Table(P, i + 1), Within(P.code, i).value;
            Emitted(P, i) == match P.code[i].val
                             case None => [XJmp(LLeave(f))]
                             case Some(a) => [XMov(Sl(m, a), R(RAX)), XJmp(LLeave(f))]
  {
    hide Table, Within, FrameSize, SlotOf, ParamCount;
    EmittedInside(P, i);
  }

  lemma {:induction false} EmittedParam(P: IrProgram, i: nat)
    requires i < |P.code| && Inside(P, i) && P.code[i].IParam?
    ensures var o, n := Sl(Table(P, i + 1), P.code[i].var1), ParamCount(P.code, i);
            && Emitted(P, i) == (if n < 6 then [XMov(o, R(ARG_REGS[n]))] else [XPush(o)])
            && ParamCount(P.code, i + 1) == n + 1
  {
    hide Table, Within, FrameSize, SlotOf;
    EmittedInside(P, i);
  }

  lemma {:induction false} EmittedLeave(P: IrProgram, i: nat)
    requires i < |P.code| && P.code[i].ILeave?
    ensures Emitted(P, i) == [XLabel(LLeave(P.code[i].f)), XMov(R(RBP), R(RSP)), XPop(RBP), XRet]
  {
  }

  lemma {:induction false} EmittedExtern(P: IrProgram, i: nat)
    requires i < |P.code| && P.code[i].IExtern?
    ensures Emitted(P, i) == []
  {
  }

  lemma {:induction false} FirstIndex(m: seq<Key>, k: Key, i: nat)
    requires i < |m| && m[i] == k && forall j :: 0 <= j < i ==> m[j] != k
    ensures IndexOf(m, k) == Some(i)
    decreases i
  {
    if i > 0 {
      FirstIndex(m[1..], k, i - 1);
    }
  }

  lemma {:induction false} AddKeysNone(m: seq<Key>)
    ensures AddKeys(m, []) == m && KeysOf([]) == []
  {
  }

  lemma {:induction false} AddKeysAppend(m: seq<Key>, a: seq<Key>, b: seq<Key>)
    ensures AddKeys(m, a + b) == AddKeys(AddKeys(m, a), b)
    decreases |b|
  {
    if b == [] {
      assert a + b == a;
    } else {
      var b0, k := b[..|b| - 1], b[|b| - 1];
      assert a + b == (a + b0) + [k];
      AddKeysSnoc(m, a + b0, k);
      AddKeysAppend(m, a, b0);
    }
  }

  lemma {:induction false} AddKeysHolds(m: seq<Key>, ks: seq<Key>, k: Key)
    requires k in ks || k in m
    ensures k in AddKeys(m, ks)
    decreases |ks|
  {
    if ks != [] {
      var k0 := ks[|ks| - 1];
      assert ks == ks[..|ks| - 1] + [k0];
      if k != k0 {
        AddKeysHolds(m, ks[..|ks| - 1], k);
      }
    }
  }

  lemma {:induction false} SizingOne(code: Code, i: nat)
    requires i < |code|
    ensures SizingRange(code, i, i) == SizingKeys(code[i])
  {
  }

  lemma {:induction false} SizingMore(code: Code, i: nat, k: nat)
    requires i < k < |code|
    ensures AddKeys([], SizingRange(code, i, k))
         == AddKeys(AddKeys([], SizingRange(code, i, k - 1)), SizingKeys(code[k]))
  {
    AddKeysAppend([], SizingRange(code, i, k - 1), SizingKeys(code[k]));
  }

  lemma {:induction false} ParamsCodeKept(m: seq<Key>, k: Key, xs: seq<string>, n: nat)
    requires n <= |xs| && forall l :: 0 <= l < n ==> KId(xs[l]) in m
    ensures ParamsCode(AddKey(m, k), xs, n) == ParamsCode(m, xs, n)
    decreases n
  {
    if n > 0 {
      ParamsCodeKept(m, k, xs, n - 1);
      SlotKept(m, k, KId(xs[n - 1]));
    }
  }

  lemma {:induction false} ParamsCodeMore(m: seq<Key>, xs: seq<string>, j: nat)
    requires j < |xs| && m == AddKeys([], ParamKeys(xs)[..j])
    ensures AddKey(m, KId(xs[j])) == AddKeys([], ParamKeys(xs)[..j + 1])
    ensures ParamsCode(AddKey(m, KId(xs[j])), xs, j + 1)
         == ParamsCode(m, xs, j) + ParamCode(j, SlotOf(AddKey(m, KId(xs[j])), KId(xs[j])))
  {
    hide AddKeys, SlotOf, ParamCode;
    assert ParamKeys(xs)[..j + 1] == ParamKeys(xs)[..j] + [KId(xs[j])];
    AddKeysSnoc([], ParamKeys(xs)[..j], KId(xs[j]));
    forall l | 0 <= l < j
      ensures KId(xs[l]) in m
    {
      assert ParamKeys(xs)[..j][l] == KId(xs[l]);
      AddKeysHolds([], ParamKeys(xs)[..j], KId(xs[l]));
    }
    ParamsCodeKept(m, KId(xs[j]), xs, j);
  }
}
