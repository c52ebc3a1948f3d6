/** How much space a method's frame reserves, counted over the texts in its code, and exactly when its slots
    fit in it. */
module FrameExact {
  import opened Ir
  import opened IrGen
  import opened Lowering
  import opened Frames

  // ----- the texts of a method -----

  /** The operands of f's instructions, temporaries and variables alike. */
  ghost function OperandTexts(code: Code, f: string): set<Key>
    requires HasMethod(code, f)
  {
    set j, n | EnterOf(code, f) < j < LeaveAt(code, f) && n in Cells(code[j]) :: KeyOf(n)
  }

  ghost function CalleeTexts(code: Code, f: string): set<Key>
    requires HasMethod(code, f)
  {
    set j | EnterOf(code, f) < j < LeaveAt(code, f) && code[j].ICall? :: KId(code[j].f)
  }

  /** A negative literal does not start with a digit. */
  ghost function NegativeTexts(code: Code, f: string): set<Key>
    requires HasMethod(code, f)
  {
    (set j | EnterOf(code, f) < j < LeaveAt(code, f) && code[j].ILoadVal? && code[j].v < 0 :: KLit(code[j].v))
    + (set j | EnterOf(code, f) < j < LeaveAt(code, f) && code[j].IStore? && code[j].src.Lit? && code[j].src.v < 0
         :: KLit(code[j].src.v))
  }

  /** All texts in f's code for which space is reserved. */
  ghost function CountedTexts(code: Code, f: string): set<Key>
    requires HasMethod(code, f)
  {
    {KId(f)} + CalleeTexts(code, f) + OperandTexts(code, f) + NegativeTexts(code, f)
  }

  ghost function ParamTexts(P: IrProgram, f: string): set<Key> {
    set x | x in ParamsOf(P, f) :: KId(x)
  }

  /** The texts that get a slot: parameters, and cells that an emitted instruction reads or writes. */
  ghost function SlotTexts(P: IrProgram, f: string): set<Key>
    requires HasMethod(P.code, f)
  {
    ParamTexts(P, f)
    + (set j, n | EnterOf(P.code, f) < j < LeaveAt(P.code, f) && n in Operands(P.code[j]) :: KeyOf(n))
  }

  // ----- the sizing pass counts them -----

  ghost predicate HasKey(ns: seq<Name>, k: Key) {
    exists n :: n in ns && k == KeyOf(n)
  }

  ghost predicate CountedAt(i: Instr, k: Key) {
    || (i.ICall? && k == KId(i.f))
    || HasKey(Cells(i), k)
    || (i.ILoadVal? && i.v < 0 && k == KLit(i.v))
    || (i.IStore? && i.src.Lit? && i.src.v < 0 && k == KLit(i.src.v))
  }

  /** The cells an instruction mentions are those it reads and the one it writes; LOAD does neither. */
  lemma {:induction false} CellsAreOperands(i: Instr)
    ensures !i.ILoad? ==> Cells(i) == Operands(i)
  {
  }

  lemma {:induction false} KeysMember(ns: seq<Name>, k: Key)
    ensures k in KeysOf(ns) <==> HasKey(ns, k)
  {
    hide KeyOf;
    if n :| n in ns && k == KeyOf(n) {
      var x :| 0 <= x < |ns| && ns[x] == n;
      assert KeysOf(ns)[x] == k;
    }
    if x: nat :| x < |KeysOf(ns)| && KeysOf(ns)[x] == k {
      assert ns[x] in ns;
    }
  }

  lemma {:induction false} SizedIsCounted(i: Instr, k: Key)
    requires !FrameMark(i)
    ensures k in SizingKeys(i) <==> CountedAt(i, k)
  {
    CellsAreOperands(i);
    if !i.ILoadVal? && !i.ILoad? && !i.IStore? && !i.ICall? {
      hide Cells, Operands, HasKey;
      KeysMember(Operands(i), k);
    }
  }

  lemma {:induction false} SizedBetween(code: Code, e: nat, j: nat, k: Key)
    requires e <= j < |code|
    ensures k in SizingRange(code, e, j) <==> exists i :: e <= i <= j && k in SizingKeys(code[i])
    decreases j
  {
    hide SizingKeys;
    if e < j {
      SizedBetween(code, e, j - 1, k);
    }
  }

  lemma {:induction false} CountedMember(code: Code, f: string, k: Key)
    requires HasMethod(code, f)
    ensures k in CountedTexts(code, f)
            <==> k == KId(f) || exists i :: EnterOf(code, f) < i < LeaveAt(code, f) && CountedAt(code[i], k)
  {
    var e, l := EnterOf(code, f), LeaveAt(code, f);
    hide HasMethod, Cells, KeyOf, EnterOf, LeaveAt;
    if k in CountedTexts(code, f) && k != KId(f) {
      if k in CalleeTexts(code, f) {
        var j :| e < j < l && code[j].ICall? && k == KId(code[j].f);
        assert CountedAt(code[j], k);
      } else if k in OperandTexts(code, f) {
        var j, n :| e < j < l && n in Cells(code[j]) && k == KeyOf(n);
        assert CountedAt(code[j], k);
      } else {
        assert k in NegativeTexts(code, f);
      }
    }
  }

  /** The sizing pass collects exactly the counted texts. */
  lemma {:induction false} SizingCounts(code: Code, f: string)
    requires HasMethod(code, f)
    ensures forall k :: k in SizingRange(code, EnterOf(code, f), LeaveAt(code, f)) <==> k in CountedTexts(code, f)
  {
    var e, l := EnterOf(code, f), LeaveAt(code, f);
    hide CountedTexts, CountedAt, HasMethod, SizingRange, EnterOf, LeaveAt;
    forall k
      ensures k in SizingRange(code, e, l) <==> k in CountedTexts(code, f)
    {
      SizedMember(code, f, k);
      CountedMember(code, f, k);
    }
  }

  lemma {:induction false} Unmarked(code: Code, f: string, i: nat)
    requires HasMethod(code, f) && EnterOf(code, f) < i < LeaveAt(code, f)
    ensures !FrameMark(code[i])
  {
    hide IndexOf, FrameMark;
  }

  lemma {:induction false} SizedMember(code: Code, f: string, k: Key)
    requires HasMethod(code, f)
    ensures k in SizingRange(code, EnterOf(code, f), LeaveAt(code, f))
            <==> k == KId(f) || exists i :: EnterOf(code, f) < i < LeaveAt(code, f) && CountedAt(code[i], k)
  {
    var e, l := EnterOf(code, f), LeaveAt(code, f);
    assert SizingKeys(code[e]) == [KId(f)] && SizingKeys(code[l]) == [KId(f)];
    hide CountedAt, EnterOf, LeaveAt, SizingKeys, SizingRange, HasMethod, FrameMark;
    SizedBetween(code, e, l, k);
    forall i | e < i < l
      ensures k in SizingKeys(code[i]) <==> CountedAt(code[i], k)
    {
      Unmarked(code, f, i);
      SizedIsCounted(code[i], k);
    }
  }

  // ----- the size of the frame -----

  lemma {:induction false} SetOfKeys(m: seq<Key>, s: set<Key>)
    requires NoRepeats(m) && forall k :: k in m <==> k in s
    ensures |m| == |s|
    decreases |m|
  {
    if m == [] {
      assert s == {};
    } else {
      var k, m0 := m[|m| - 1], m[..|m| - 1];
      assert k in m && m == m0 + [k];
      forall j
        ensures j in m0 <==> j in s - {k}
      {
        if j in m0 {
          var x :| 0 <= x < |m0| && m0[x] == j;
          assert m[x] == j && j in m;
        }
        if j in s - {k} {
          assert j in m;
        }
      }
      SetOfKeys(m0, s - {k});
    }
  }

  /** The prologue reserves 8 bytes for each distinct text in the method's code, its own name included, rounded
      up to a multiple of 16. */
  lemma {:induction false} ReservedExactly(P: IrProgram, f: string)
    requires HasMethod(P.code, f)
    ensures Reserved(P, f) % 16 == 0
    ensures 8 * |CountedTexts(P.code, f)| <= Reserved(P, f) < 8 * |CountedTexts(P.code, f)| + 16
  {
    var e, l := EnterOf(P.code, f), LeaveAt(P.code, f);
    hide CountedTexts, SizingRange, HasMethod, LeaveOf, AddKeys;
    LeaveFound(P.code, f);
    SizingCounts(P.code, f);
    var counted := SizingRange(P.code, e, l);
    AddKeysDistinct([], counted);
    AddKeysExtend([], counted);
    SetOfKeys(AddKeys([], counted), CountedTexts(P.code, f));
  }

  // ----- when the slots fit -----

  lemma {:induction false} BodyMember(code: Code, e: nat, j: nat, k: Key)
    requires e < j <= |code|
    ensures k in BodyKeys(code, e, j) <==> exists i :: e < i < j && HasKey(Operands(code[i]), k)
    decreases j
  {
    hide KeysOf, Operands, HasKey;
    if j > e + 1 {
      BodyMember(code, e, j - 1, k);
      KeysMember(Operands(code[j - 1]), k);
    }
  }

  /** The slot table at the end of the method holds exactly the slot texts, each once. */
  lemma {:induction false} SlotsExactly(P: IrProgram, f: string)
    requires Structured(P.code) && HasMethod(P.code, f)
    ensures forall k :: k in Final(P, f) <==> k in SlotTexts(P, f)
    ensures |Final(P, f)| == |SlotTexts(P, f)|
  {
    var e, l := EnterOf(P.code, f), LeaveAt(P.code, f);
    hide Structured, HasMethod, Final, BodyKeys, AddKeys, Operands, ParamsOf, ParamKeys, SlotTexts, EnterOf, LeaveAt,
         FrameFits;
    FrameFitsExactly(P, f);
    var ps, b := ParamKeys(ParamsOf(P, f)), BodyKeys(P.code, e, l);
    AddKeysExtend([], ps + b);
    AddKeysDistinct([], ps + b);
    forall k
      ensures k in Final(P, f) <==> k in SlotTexts(P, f)
    {
      SlotMember(P, f, k);
    }
    SetOfKeys(Final(P, f), SlotTexts(P, f));
  }

  lemma {:induction false} SlotMember(P: IrProgram, f: string, k: Key)
    requires HasMethod(P.code, f)
    ensures k in ParamKeys(ParamsOf(P, f)) + BodyKeys(P.code, EnterOf(P.code, f), LeaveAt(P.code, f))
            <==> k in SlotTexts(P, f)
  {
    var e, l := EnterOf(P.code, f), LeaveAt(P.code, f);
    hide HasMethod, BodyKeys, Operands, ParamKeys, ParamsOf, ParamTexts, EnterOf, LeaveAt, KeyOf;
    BodyMember(P.code, e, l, k);
    ParamMember(P, f, k);
  }

  lemma {:induction false} ParamMember(P: IrProgram, f: string, k: Key)
    ensures k in ParamKeys(ParamsOf(P, f)) <==> k in ParamTexts(P, f)
  {
    var xs := ParamsOf(P, f);
    if k in ParamTexts(P, f) {
      var x :| x in xs && k == KId(x);
      var i :| 0 <= i < |xs| && xs[i] == x;
      assert ParamKeys(xs)[i] == k;
    }
  }

  /** Every slot lies in the reserved space if and only if the parameters that the code does not mention are no
      more than the counted texts that get no slot, plus one when the count is odd. */
  lemma {:induction false} FitsByTexts(P: IrProgram, f: string)
    requires Structured(P.code) && HasMethod(P.code, f)
    ensures var counted, slots := CountedTexts(P.code, f), SlotTexts(P, f);
            FrameFits(P, f) <==> |ParamTexts(P, f) - counted| <= |counted - slots| + |counted| % 2
  {
    hide Structured, HasMethod, CountedTexts, SlotTexts, ParamTexts, Reserved, Final;
    var counted, slots := CountedTexts(P.code, f), SlotTexts(P, f);
    ReservedExactly(P, f);
    SlotsExactly(P, f);
    SlotsUncounted(P, f);
    SplitSizes(counted, slots);
  }

  /** An operand is counted, so a slot that is not belongs to a parameter. */
  lemma {:induction false} SlotsUncounted(P: IrProgram, f: string)
    requires HasMethod(P.code, f)
    ensures SlotTexts(P, f) - CountedTexts(P.code, f) == ParamTexts(P, f) - CountedTexts(P.code, f)
  {
    var e, l := EnterOf(P.code, f), LeaveAt(P.code, f);
    hide HasMethod, Cells, Operands, ParamTexts;
    forall j, n | e < j < l && n in Operands(P.code[j])
      ensures KeyOf(n) in CountedTexts(P.code, f)
    {
      CellsAreOperands(P.code[j]);
      if P.code[j].ILoad? {
        LoadHasNone(P.code[j]);
      }
    }
  }

  lemma {:induction false} LoadHasNone(i: Instr)
    requires i.ILoad?
    ensures Operands(i) == []
  {
  }

  lemma {:induction false} SplitSizes(a: set<Key>, b: set<Key>)
    ensures |a| == |a * b| + |a - b|
    ensures |b| == |a * b| + |b - a|
  {
    assert a == a * b + (a - b);
    assert b == a * b + (b - a);
  }
}
