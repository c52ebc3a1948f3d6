/** Reuse of temporaries preserves meaning: the renamed code and the original run in lockstep. */
module ReuseCorrect {
  import opened Words
  import opened Source
  import opened Ir
  import opened IrGen
  import opened Runs
  import opened TempFlow
  import opened TempPositions
  import opened TempReuse
  import opened ReuseOptimal
  import opened Optimizer

  // ----- temporaries that will still be read -----

  /** t holds a value at pc that some later instruction reads. */
  ghost predicate Useful(code: Code, pc: nat, t: nat)
    requires Disciplined(code) && pc <= |code|
  {
    t in FlowAt(code, pc).live && exists j :: pc <= j && ReadAt(code, j, t)
  }

  lemma {:induction false} ReadIsUseful(code: Code, pc: nat, t: nat)
    requires Disciplined(code) && ReadAt(code, pc, t)
    ensures Useful(code, pc, t)
  {
    ReadIsLive(code, pc, t);
  }

  lemma {:induction false} UsefulStep(code: Code, pc: nat, t: nat)
    requires Disciplined(code) && pc < |code| && Useful(code, pc + 1, t)
    ensures !Boundary(code[pc])
    ensures Useful(code, pc, t) || Writes(code[pc]) == Some(Tmp(t))
  {
    LiveStep(code, pc, t);
  }

  /** Nothing is carried across a label, a jump, a return or a method boundary. */
  lemma {:induction false} NothingUsefulAtBoundary(code: Code, q: nat, t: nat)
    requires Disciplined(code) && q < |code| && Boundary(code[q]) && Reads(code[q]) == []
    ensures !Useful(code, q, t)
  {
    if Useful(code, q, t) {
      var j :| q <= j && ReadAt(code, j, t);
      FlowNext(code, q);
      GoneStaysGone(code, q + 1, j, t);
      ReadIsLive(code, j, t);
    }
  }

  lemma {:induction false} NothingUsefulAfterBoundary(code: Code, q: nat, t: nat)
    requires Disciplined(code) && q < |code| && Boundary(code[q])
    ensures !Useful(code, q + 1, t)
  {
    FlowNext(code, q);
  }

  // ----- a renaming keeps useful values apart -----

  ghost predicate Fits(code: Code, r: seq<nat>) {
    Disciplined(code) && Renaming(Occurrences(code), FlowRun(code, START).value.next, r)
  }

  lemma {:induction false} LiveInRange(code: Code, r: seq<nat>, pc: nat, t: nat)
    requires Fits(code, r) && pc <= |code| && t < FlowAt(code, pc).next
    ensures t < |r|
  {
    NextGrows(code, pc, |code|);
    assert code[..|code|] == code;
  }

  lemma {:induction false} ReadOccurs(code: Code, j: nat, t: nat) returns (l: nat)
    requires ReadAt(code, j, t)
    ensures |Occurrences(code[..j])| <= l < |Occurrences(code)| && Occurrences(code)[l] == t
  {
    hide Occurrences, TempsIn, Cells;
    var ts := Temps(code[j]);
    TempsReadWritten(code[j]);
    NameInTemps(Reads(code[j]), t);
    assert t in ts;
    var x :| 0 <= x < |ts| && ts[x] == t;
    OccurrencesSplit(code, j);
    l := |Occurrences(code[..j])| + x;
    assert Occurrences(code)[l] == Occurrences(code)[|Occurrences(code[..j])|..|Occurrences(code[..j])| + |ts|][x];
  }

  lemma {:induction false} NameInTemps(ns: seq<Name>, t: nat)
    requires Tmp(t) in ns
    ensures t in TempsIn(ns)
    decreases |ns|
  {
    if ns[0] != Tmp(t) {
      NameInTemps(ns[1..], t);
    }
  }

  lemma {:induction false} OccurrencesPrefix(code: Code, i: nat)
    requires i <= |code|
    ensures |Occurrences(code[..i])| <= |Occurrences(code)|
    ensures Occurrences(code)[..|Occurrences(code[..i])|] == Occurrences(code[..i])
  {
    assert code == code[..i] + code[i..];
    OccurrencesAppend(code[..i], code[i..]);
  }

  lemma {:induction false} WriteOccurs(code: Code, pc: nat, d: nat) returns (m: nat)
    requires pc < |code| && Writes(code[pc]) == Some(Tmp(d))
    ensures |Occurrences(code[..pc])| <= m < |Occurrences(code[..pc + 1])| <= |Occurrences(code)|
    ensures Occurrences(code)[m] == d
  {
    hide Occurrences, TempsIn, Reads, Cells;
    var k, ts, occs := |Occurrences(code[..pc])|, Temps(code[pc]), Occurrences(code);
    TempsReadWritten(code[pc]);
    OccurrencesSplit(code, pc);
    m := k + |ts| - 1;
    assert occs[m] == occs[k..k + |ts|][|ts| - 1];
  }

  /** A temporary written while another is useful occurs inside the other's range. */
  lemma {:induction false} WrittenInside(code: Code, pc: nat, t: nat, d: nat)
    requires Disciplined(code) && pc < |code| && Writes(code[pc]) == Some(Tmp(d))
    requires Useful(code, pc + 1, t) && t != d
    ensures Inside(Occurrences(code), t, d)
  {
    hide Occurrences, TempsIn, FlowRun, Reads, Cells, Writes, FlowStep;
    var occs := Occurrences(code);
    LiveStep(code, pc, t);
    FlowNext(code, pc);
    FlowPrefix(code, START, pc);
    FlowInOrder(code[..pc]);
    var before := Occurrences(code[..pc]);
    var i := SeenOccurs(before, |before|, t);
    OccurrencesPrefix(code, pc);
    assert occs[i] == occs[..|before|][i] == t;
    var m := WriteOccurs(code, pc, d);
    var j :| pc + 1 <= j && ReadAt(code, j, t);
    FlowNext(code, j);
    var l := ReadOccurs(code, j, t);
    OccurrencesGrow(code, pc + 1, j);
    assert i < m < l;
  }

  lemma {:induction false} OccurrencesGrow(code: Code, i: nat, j: nat)
    requires i <= j <= |code|
    ensures |Occurrences(code[..i])| <= |Occurrences(code[..j])|
  {
    assert code[..j][..i] == code[..i];
    OccurrencesPrefix(code[..j], i);
  }

  lemma {:induction false} NoClash(code: Code, r: seq<nat>, pc: nat, t: nat, d: nat)
    requires Fits(code, r) && pc < |code| && Writes(code[pc]) == Some(Tmp(d))
    requires Useful(code, pc + 1, t) && t != d
    ensures t < |r| && d < |r| && r[t] != r[d]
  {
    hide Occurrences, FlowRun, Inside, Reads, Consume;
    WrittenInside(code, pc, t, d);
    FlowNext(code, pc);
    LiveStep(code, pc, t);
    LiveInRange(code, r, pc + 1, d);
    LiveInRange(code, r, pc, t);
  }

  // ----- the simulation relation -----

  ghost predicate SameVars(s: Store, s': Store) {
    forall x :: Get(s', Var(x)) == Get(s, Var(x))
  }

  /** Same variables; each useful temporary's value is in the cell it was renamed to. The cell skip is
      about to be written. */
  ghost predicate StoreInStep(code: Code, r: seq<nat>, pc: nat, skip: Option<Name>, s: Store, s': Store)
    requires Disciplined(code) && pc <= |code|
  {
    && SameVars(s, s')
    && (forall t: nat :: Useful(code, pc, t) && skip != Some(Tmp(t)) ==>
          t < |r| && Get(s', Tmp(r[t])) == Get(s, Tmp(t)))
  }

  ghost predicate StackInStep(code: Code, r: seq<nat>, stk: Stack, stk': Stack)
    requires Disciplined(code)
  {
    match (stk, stk')
    case (NoFrame, NoFrame) => true
    case (Push(fr, rest), Push(fr', rest')) =>
      && fr'.f == fr.f && fr'.pc == fr.pc && fr'.reg == RenameName(fr.reg, r)
      && 0 < fr.pc <= |code| && code[fr.pc - 1].ICall? && code[fr.pc - 1].reg == fr.reg
      && StoreInStep(code, r, fr.pc, Some(fr.reg), fr.store, fr'.store)
      && StackInStep(code, r, rest, rest')
    case _ => false
  }

  ghost predicate InStep(code: Code, r: seq<nat>, st: State, st': State)
    requires Disciplined(code)
  {
    match (st, st')
    case (Halted(v, tr), Halted(v', tr')) => v == v' && tr == tr'
    case (Running(f, pc, s, pend, stk, tr), Running(f', pc', s', pend', stk', tr')) =>
      && f' == f && pc' == pc && pend' == pend && tr' == tr
      && pc <= |code| && StoreInStep(code, r, pc, None, s, s') && StackInStep(code, r, stk, stk')
    case _ => false
  }

  lemma {:induction false} OperandSame(code: Code, r: seq<nat>, pc: nat, s: Store, s': Store, n: Name)
    requires Disciplined(code) && pc < |code| && StoreInStep(code, r, pc, None, s, s') && n in Reads(code[pc])
    ensures Get(s', RenameName(n, r)) == Get(s, n)
  {
    if n.Tmp? {
      ReadIsUseful(code, pc, n.k);
    }
  }

  /** Storing a result keeps the relation: no other useful value is in that cell. */
  lemma {:induction false} AfterStore(code: Code, r: seq<nat>, pc: nat, skip: Option<Name>, s: Store, s': Store,
      d: Name, v: Option<Word>)
    requires Fits(code, r) && pc < |code| && Writes(code[pc]) == Some(d)
    requires (skip.None? && StoreInStep(code, r, pc, None, s, s')) || StoreInStep(code, r, pc + 1, Some(d), s, s')
    ensures StoreInStep(code, r, pc + 1, None, Set(s, d, v), Set(s', RenameName(d, r), v))
  {
    var a, a', q := Set(s, d, v), Set(s', RenameName(d, r), v), pc + 1;
    forall t: nat | Useful(code, q, t)
      ensures t < |r| && Get(a', Tmp(r[t])) == Get(a, Tmp(t))
    {
      UsefulStep(code, pc, t);
      if d.Tmp? {
        FlowNext(code, pc);
        LiveInRange(code, r, pc + 1, d.k);
        if t != d.k {
          NoClash(code, r, pc, t, d.k);
        }
      }
    }
  }

  lemma {:induction false} AfterPlain(code: Code, r: seq<nat>, pc: nat, s: Store, s': Store)
    requires Disciplined(code) && pc < |code| && Writes(code[pc]).None? && StoreInStep(code, r, pc, None, s, s')
    ensures StoreInStep(code, r, pc + 1, None, s, s')
  {
    var q := pc + 1;
    forall t: nat | Useful(code, q, t)
      ensures t < |r| && Get(s', Tmp(r[t])) == Get(s, Tmp(t))
    {
      UsefulStep(code, pc, t);
    }
  }

  /** At a jump target, or behind any boundary, only the variables matter. */
  lemma {:induction false} AtTarget(code: Code, r: seq<nat>, q: nat, s: Store, s': Store)
    requires Disciplined(code) && q <= |code| && SameVars(s, s')
    requires (q < |code| && code[q].ILabel?) || (0 < q && Boundary(code[q - 1]))
    ensures StoreInStep(code, r, q, None, s, s')
  {
    forall t: nat
      ensures !Useful(code, q, t)
    {
      if q < |code| && code[q].ILabel? {
        NothingUsefulAtBoundary(code, q, t);
      } else {
        NothingUsefulAfterBoundary(code, q - 1, t);
      }
    }
  }

  lemma {:induction false} IndexOfSame<T>(s: seq<T>, s': seq<T>, x: T)
    requires |s| == |s'| && forall i :: 0 <= i < |s| ==> (s[i] == x <==> s'[i] == x)
    ensures IndexOf(s', x) == IndexOf(s, x)
    decreases |s|
  {
    if s != [] && s[0] != x {
      forall i | 0 <= i < |s| - 1
        ensures s[1..][i] == x <==> s'[1..][i] == x
      {
        assert s[1..][i] == s[i + 1] && s'[1..][i] == s'[i + 1];
      }
      IndexOfSame(s[1..], s'[1..], x);
    }
  }

  lemma {:induction false} MarkSame(code: Code, r: seq<nat>, i: Instr)
    requires i.ILabel? || i.IEnter? || i.ILeave?
    ensures IndexOf(RenameCode(code, r), i) == IndexOf(code, i)
  {
    IndexOfSame(code, RenameCode(code, r), i);
  }

  function RenameProgram(P: IrProgram, r: seq<nat>): IrProgram {
    P.(code := RenameCode(P.code, r))
  }

  lemma {:induction false} PopInStep(code: Code, r: seq<nat>, v: Option<Word>, stk: Stack, stk': Stack, tr: Trace)
    requires Fits(code, r) && StackInStep(code, r, stk, stk')
    ensures InStep(code, r, PopFrame(v, stk, tr), PopFrame(v, stk', tr))
  {
    hide StoreInStep;
    if stk.Push? {
      var fr, fr' := stk.top, stk'.top;
      AfterStore(code, r, fr.pc - 1, Some(fr.reg), fr.store, fr'.store, fr.reg, v);
    }
  }

  /** Both machines step to matching states, or neither steps. */
  ghost predicate SameStep(P: IrProgram, r: seq<nat>, st: State, st': State)
    requires Disciplined(P.code)
  {
    match (Step(P, st), Step(RenameProgram(P, r), st'))
    case (None, None) => true
    case (Some(a), Some(a')) => InStep(P.code, r, a, a')
    case _ => false
  }

  lemma {:induction false} StepData(P: IrProgram, r: seq<nat>, st: State, st': State)
    requires Fits(P.code, r) && InStep(P.code, r, st, st') && st.Running? && st.pc < |P.code|
    requires Writes(P.code[st.pc]).Some? && !P.code[st.pc].ICall?
    ensures SameStep(P, r, st, st')
  {
    hide StoreInStep, StackInStep, IrApply, ShiftDivide, ApplyUn;
    var code, i := P.code, P.code[st.pc];
    forall n | n in Reads(i)
      ensures Get(st'.store, RenameName(n, r)) == Get(st.store, n)
    {
      OperandSame(code, r, st.pc, st.store, st'.store, n);
    }
    var d := Writes(i).value;
    forall v
      ensures StoreInStep(code, r, st.pc + 1, None, Set(st.store, d, v), Set(st'.store, RenameName(d, r), v))
    {
      AfterStore(code, r, st.pc, None, st.store, st'.store, d, v);
    }
    StepDataCases(P, r, st, st');
  }

  lemma {:induction false} StepDataCases(P: IrProgram, r: seq<nat>, st: State, st': State)
    requires Fits(P.code, r) && InStep(P.code, r, st, st') && st.Running? && st.pc < |P.code|
    requires Writes(P.code[st.pc]).Some? && !P.code[st.pc].ICall?
    requires forall n :: n in Reads(P.code[st.pc]) ==> Get(st'.store, RenameName(n, r)) == Get(st.store, n)
    requires var d := Writes(P.code[st.pc]).value;
             forall v ::
               StoreInStep(P.code, r, st.pc + 1, None, Set(st.store, d, v), Set(st'.store, RenameName(d, r), v))
    ensures SameStep(P, r, st, st')
  {
    hide StoreInStep, StackInStep, IrApply, ShiftDivide, ApplyUn, Fits;
    var i, d := P.code[st.pc], Writes(P.code[st.pc]).value;
    match i
    case ILoadVal(v, _) =>
      assert st.store[d := v as Word] == Set(st.store, d, Some(v as Word));
    case IStore(src, _) =>
      assert src.Loc? ==> src.n in Reads(i);
    case IBin(op, a, b, _) =>
      assert a in Reads(i) && b in Reads(i);
      if a in st.store && b in st.store && IrApply(op, st.store[a], st.store[b]).Some? {
        var w := IrApply(op, st.store[a], st.store[b]).value;
        assert st.store[d := w] == Set(st.store, d, Some(w));
      }
    case IShr(a, k, _) =>
      assert a in Reads(i);
      if a in st.store && k <= 30 {
        var w := Step(P, st).value.store[d];
        assert st.store[d := w] == Set(st.store, d, Some(w));
      }
    case IUn(op, a, _) =>
      assert a in Reads(i);
      if a in st.store {
        var w := ApplyUn(op, st.store[a]);
        assert st.store[d := w] == Set(st.store, d, Some(w));
      }
  }

  lemma {:induction false} BindParamsVars(xs: seq<string>, vs: seq<Word>, k: nat)
    requires |xs| == |vs|
    ensures Tmp(k) !in BindParams(xs, vs)
    decreases |xs|
  {
    if xs != [] {
      BindParamsVars(xs[..|xs| - 1], vs[..|vs| - 1], k);
    }
  }

  lemma {:induction false} StepCall(P: IrProgram, r: seq<nat>, st: State, st': State)
    requires Fits(P.code, r) && InStep(P.code, r, st, st') && st.Running? && st.pc < |P.code|
    requires P.code[st.pc].ICall?
    ensures SameStep(P, r, st, st')
  {
    hide StoreInStep, Renaming, Useful, RenameProgram, RenameCode, CallStep, Disciplined;
    CallIsStep(P, st);
    CallIsRenamed(P, r, st.pc);
    CallIsStep(RenameProgram(P, r), st');
    CallsTogether(P, r, st, st');
  }

  lemma {:induction false} CallIsStep(P: IrProgram, st: State)
    requires st.Running? && st.pc < |P.code| && P.code[st.pc].ICall?
    ensures Step(P, st) == CallStep(P, P.code[st.pc].f, P.code[st.pc].reg, st)
  {
    hide CallStep;
  }

  lemma {:induction false} CallIsRenamed(P: IrProgram, r: seq<nat>, pc: nat)
    requires pc < |P.code| && P.code[pc].ICall?
    ensures var P' := RenameProgram(P, r);
            && |P'.code| == |P.code| && P'.code[pc] == ICall(P.code[pc].f, RenameName(P.code[pc].reg, r))
            && P'.sigs == P.sigs && P'.ext == P.ext
            && IndexOf(P'.code, IEnter(P.code[pc].f)) == IndexOf(P.code, IEnter(P.code[pc].f))
  {
    MarkSame(P.code, r, IEnter(P.code[pc].f));
  }

  ghost predicate SameCall(P: IrProgram, r: seq<nat>, st: State, st': State)
    requires Disciplined(P.code) && st.Running? && st'.Running? && st.pc < |P.code| && P.code[st.pc].ICall?
  {
    var f, d := P.code[st.pc].f, P.code[st.pc].reg;
    match (CallStep(P, f, d, st), CallStep(RenameProgram(P, r), f, RenameName(d, r), st'))
    case (None, None) => true
    case (Some(a), Some(a')) => InStep(P.code, r, a, a')
    case _ => false
  }

  lemma {:induction false} CallsTogether(P: IrProgram, r: seq<nat>, st: State, st': State)
    requires Fits(P.code, r) && InStep(P.code, r, st, st') && st.Running? && st.pc < |P.code|
    requires P.code[st.pc].ICall?
    ensures SameCall(P, r, st, st')
  {
    hide StoreInStep, Renaming, Useful, RenameProgram, RenameCode;
    var code, f, d := P.code, P.code[st.pc].f, P.code[st.pc].reg;
    CallIsRenamed(P, r, st.pc);
    if f in P.sigs && |P.sigs[f].params| == |st.pend| {
      var tr1 := st.tr + [Event(f, st.pend)];
      if P.sigs[f].isExtern {
        AfterStore(code, r, st.pc, None, st.store, st'.store, d, P.ext(tr1));
      } else if IndexOf(code, IEnter(f)).Some? {
        var q := IndexOf(code, IEnter(f)).value;
        var s0 := BindParams(P.sigs[f].params, st.pend);
        AtTarget(code, r, q + 1, s0, s0);
        SuspendMatch(code, r, st.pc, st.store, st'.store);
      }
    }
  }

  lemma {:induction false} VarsOf(code: Code, r: seq<nat>, pc: nat, skip: Option<Name>, s: Store, s': Store)
    requires Disciplined(code) && pc <= |code| && StoreInStep(code, r, pc, skip, s, s')
    ensures SameVars(s, s')
  {
  }

  lemma {:induction false} SuspendMatch(code: Code, r: seq<nat>, pc: nat, s: Store, s': Store)
    requires Disciplined(code) && pc < |code| && code[pc].ICall? && StoreInStep(code, r, pc, None, s, s')
    ensures StoreInStep(code, r, pc + 1, Some(code[pc].reg), s, s')
  {
    var q := pc + 1;
    forall t: nat | Useful(code, q, t) && Some(code[pc].reg) != Some(Tmp(t))
      ensures t < |r| && Get(s', Tmp(r[t])) == Get(s, Tmp(t))
    {
      UsefulStep(code, pc, t);
    }
  }

  lemma {:induction false} StepReturn(P: IrProgram, r: seq<nat>, st: State, st': State)
    requires Fits(P.code, r) && InStep(P.code, r, st, st') && st.Running? && st.pc < |P.code|
    requires P.code[st.pc].IRet? || P.code[st.pc].ILeave?
    ensures SameStep(P, r, st, st')
  {
    hide StackInStep, StoreInStep, Renaming;
    var i := P.code[st.pc];
    assert RenameProgram(P, r).code[st.pc] == RenameInstr(i, r);
    if i.IRet? && i.val.Some? {
      OperandSame(P.code, r, st.pc, st.store, st'.store, i.val.value);
      PopInStep(P.code, r, Get(st.store, i.val.value), st.stack, st'.stack, st.tr);
    } else {
      PopInStep(P.code, r, None, st.stack, st'.stack, st.tr);
    }
  }

  lemma {:induction false} JumpMatch(code: Code, r: seq<nat>, pc: nat, l: nat, s: Store, s': Store)
    requires Disciplined(code) && pc <= |code| && StoreInStep(code, r, pc, None, s, s')
    ensures IndexOf(RenameCode(code, r), ILabel(l)) == IndexOf(code, ILabel(l))
    ensures var q := IndexOf(code, ILabel(l)); q.Some? ==> StoreInStep(code, r, q.value, None, s, s')
  {
    hide StoreInStep;
    MarkSame(code, r, ILabel(l));
    VarsOf(code, r, pc, None, s, s');
    if IndexOf(code, ILabel(l)).Some? {
      AtTarget(code, r, IndexOf(code, ILabel(l)).value, s, s');
    }
  }

  lemma {:induction false} StepJump(P: IrProgram, r: seq<nat>, st: State, st': State)
    requires Fits(P.code, r) && InStep(P.code, r, st, st') && st.Running? && st.pc < |P.code|
    requires P.code[st.pc].IJmp? || P.code[st.pc].IJmpf?
    ensures SameStep(P, r, st, st')
  {
    hide StackInStep, StoreInStep, Renaming, IndexOf, RenameCode;
    var i := P.code[st.pc];
    assert RenameProgram(P, r).code[st.pc] == RenameInstr(i, r);
    JumpMatch(P.code, r, st.pc, i.l, st.store, st'.store);
    if i.IJmpf? {
      OperandSame(P.code, r, st.pc, st.store, st'.store, i.var1);
      AfterPlain(P.code, r, st.pc, st.store, st'.store);
    }
  }

  lemma {:induction false} StepPlain(P: IrProgram, r: seq<nat>, st: State, st': State)
    requires Fits(P.code, r) && InStep(P.code, r, st, st') && st.Running? && st.pc < |P.code|
    requires var i := P.code[st.pc]; i.ILoad? || i.ILabel? || i.IParam? || i.IEnter? || i.IExtern?
    ensures SameStep(P, r, st, st')
  {
    hide StackInStep, StoreInStep, Renaming;
    var i := P.code[st.pc];
    assert RenameProgram(P, r).code[st.pc] == RenameInstr(i, r);
    AfterPlain(P.code, r, st.pc, st.store, st'.store);
    if i.IParam? {
      OperandSame(P.code, r, st.pc, st.store, st'.store, i.var1);
    }
  }

  /** One step in lockstep, for every instruction and every reachable pair of states. */
  lemma {:induction false} Lockstep(P: IrProgram, r: seq<nat>, st: State, st': State)
    requires Fits(P.code, r) && InStep(P.code, r, st, st')
    ensures SameStep(P, r, st, st')
  {
    hide StackInStep, StoreInStep, SameStep, Renaming;
    if st.Running? && st.pc < |P.code| {
      if P.code[st.pc].ICall? {
        StepCall(P, r, st, st');
      } else if Writes(P.code[st.pc]).Some? {
        StepData(P, r, st, st');
      } else if P.code[st.pc].IRet? || P.code[st.pc].ILeave? {
        StepReturn(P, r, st, st');
      } else if P.code[st.pc].IJmp? || P.code[st.pc].IJmpf? {
        StepJump(P, r, st, st');
      } else {
        StepPlain(P, r, st, st');
      }
    } else {
      StuckTogether(P, r, st, st');
    }
  }

  lemma {:induction false} StuckTogether(P: IrProgram, r: seq<nat>, st: State, st': State)
    requires Disciplined(P.code) && InStep(P.code, r, st, st') && !(st.Running? && st.pc < |P.code|)
    ensures SameStep(P, r, st, st')
  {
  }

  /** Runs of any length stay in lockstep, in both directions. */
  lemma {:induction false} RunsTogether(P: IrProgram, r: seq<nat>, st: State, st': State, end: State, n: nat)
    requires Fits(P.code, r) && InStep(P.code, r, st, st') && end.Halted?
    ensures Run(Machine(P), st, end, n) <==> Run(Machine(RenameProgram(P, r)), st', end, n)
    decreases n
  {
    hide InStep, Renaming, RenameProgram, Step;
    if n == 0 {
      HaltedTogether(P.code, r, st, st', end);
    } else {
      Lockstep(P, r, st, st');
      if Step(P, st).Some? {
        RunsTogether(P, r, Step(P, st).value, Step(RenameProgram(P, r), st').value, end, n - 1);
      }
    }
  }

  lemma {:induction false} HaltedTogether(code: Code, r: seq<nat>, st: State, st': State, end: State)
    requires Disciplined(code) && InStep(code, r, st, st') && end.Halted?
    ensures st == end <==> st' == end
  {
  }

  lemma {:induction false} StartsTogether(P: IrProgram, r: seq<nat>, f: string, vs: seq<Word>, tr: Trace)
    requires Fits(P.code, r)
    ensures Start(P, f, vs, tr).Some? <==> Start(RenameProgram(P, r), f, vs, tr).Some?
    ensures Start(P, f, vs, tr).Some? ==>
      InStep(P.code, r, Start(P, f, vs, tr).value, Start(RenameProgram(P, r), f, vs, tr).value)
  {
    MarkSame(P.code, r, IEnter(f));
    if Start(P, f, vs, tr).Some? {
      var q := IndexOf(P.code, IEnter(f)).value;
      var s0 := BindParams(P.sigs[f].params, vs);
      AtTarget(P.code, r, q + 1, s0, s0);
    }
  }

  /** Any renaming that keeps overlapping temporaries apart preserves meaning: a method halts with a
      value and events in one program exactly when it does in the other. */
  lemma {:induction false} RenamingCorrect(P: IrProgram, r: seq<nat>, f: string, vs: seq<Word>, tr: Trace, end: State)
    requires Fits(P.code, r) && end.Halted? && Start(P, f, vs, tr).Some?
    ensures Start(RenameProgram(P, r), f, vs, tr).Some?
    ensures Reaches(Machine(P), Start(P, f, vs, tr).value, end)
        <==> Reaches(Machine(RenameProgram(P, r)), Start(RenameProgram(P, r), f, vs, tr).value, end)
  {
    hide Start, Renaming, InStep, RenameProgram, Step, Machine;
    StartsTogether(P, r, f, vs, tr);
    forall n: nat
      ensures Run(Machine(P), Start(P, f, vs, tr).value, end, n)
          <==> Run(Machine(RenameProgram(P, r)), Start(RenameProgram(P, r), f, vs, tr).value, end, n)
    {
      RunsTogether(P, r, Start(P, f, vs, tr).value, Start(RenameProgram(P, r), f, vs, tr).value, end, n);
    }
  }

  /** The optimizer's renaming is one of those. */
  lemma {:induction false} ReusedFits(code: Code)
    requires Disciplined(code)
    ensures Fits(code, FinalCells(Occurrences(code), (FlowInOrder(code); FlowRun(code, START).value.next)))
  {
    FlowInOrder(code);
    ReuseIsRenaming(Occurrences(code), FlowRun(code, START).value.next);
  }
}
