/** The stack pointer at calls. A call with an odd number of arguments on the stack misaligns every call
    made while it is suspended; which runs make such calls can be read off their events. */
module Alignment {
  import opened Words
  import opened Source
  import opened Ir
  import opened Runs
  import opened X86
  import opened Lowering
  import opened LoweringCorrect

  // ----- events -----

  function CallEvent(P: IrProgram, st: State): Event
    requires AtCallOf(P, st)
  {
    Event(P.code[st.pc].f, st.pend)
  }

  /** A step appends the event of its call, if it is one. */
  lemma {:induction false} StepTrace(P: IrProgram, st: State)
    requires Step(P, st).Some?
    ensures Step(P, st).value.tr == st.tr + (if AtCallOf(P, st) then [CallEvent(P, st)] else [])
  {
    hide IrApply, ShiftDivide, ApplyUn, IndexOf, BindParams;
    assert st.tr + [] == st.tr;
  }

  lemma {:induction false} TraceGrows(P: IrProgram, st: State, end: State, n: nat)
    requires Run(Machine(P), st, end, n)
    ensures st.tr <= end.tr
    decreases n
  {
    hide Step, AtCallOf;
    if n > 0 {
      StepTrace(P, st);
      TraceGrows(P, Step(P, st).value, end, n - 1);
    }
  }

  /** Every event a run adds is a call it reached. */
  lemma {:induction false} EventIsCall(P: IrProgram, st: State, end: State, n: nat, i: nat) returns (s: State, k: nat)
    requires Run(Machine(P), st, end, n) && |st.tr| <= i < |end.tr|
    ensures k < n && Run(Machine(P), st, s, k) && |s.tr| == i && AtCallOf(P, s) && end.tr[i] == CallEvent(P, s)
    decreases n
  {
    hide Step, AtCallOf;
    StepTrace(P, st);
    var st1 := Step(P, st).value;
    if i < |st1.tr| {
      s, k := st, 0;
      TraceGrows(P, st1, end, n - 1);
    } else {
      s, k := EventIsCall(P, st1, end, n - 1, i);
      k := k + 1;
    }
  }

  lemma {:induction false} CallSteps(P: IrProgram, s: State)
    requires AtCallOf(P, s)
    ensures Step(P, s).Some?
    ensures forall st: State :: st.Halted? ==> Step(P, st).None?
  {
  }

  /** Every call reached is an event of the whole run. */
  lemma {:induction false} CallIsEvent(P: IrProgram, st: State, s: State, k: nat, end: State, n: nat)
    requires Run(Machine(P), st, s, k) && Run(Machine(P), st, end, n) && end.Halted? && AtCallOf(P, s)
    ensures |st.tr| <= |s.tr| < |end.tr| && end.tr[|s.tr|] == CallEvent(P, s)
  {
    hide Step, AtCallOf;
    CallSteps(P, s);
    RunRest(Machine(P), st, s, end, k, n);
    TraceGrows(P, st, s, k);
    StepTrace(P, s);
    TraceGrows(P, Step(P, s).value, end, n - k - 1);
  }

  // ----- parity -----

  /** An even number of arguments on the stack: none, when there are at most seven, unless all seven. */
  predicate EvenArgs(n: nat) {
    StackArgs(n) % 2 == 0
  }

  ghost predicate EvenFrames(P: IrProgram, stk: Stack) {
    match stk
    case NoFrame => true
    case Push(fr, rest) => StackedBy(P, fr.pc) % 2 == 0 && EvenFrames(P, rest)
  }

  lemma {:induction false} EvenSum(P: IrProgram, stk: Stack)
    requires EvenFrames(P, stk)
    ensures Stacked(P, stk) % 2 == 0
    decreases stk
  {
    hide StackedBy;
    if stk.Push? {
      EvenSum(P, stk.rest);
      SumOfEvens(StackedBy(P, stk.top.pc), Stacked(P, stk.rest));
    }
  }

  lemma SumOfEvens(a: nat, b: nat)
    requires a % 2 == 0 && b % 2 == 0
    ensures (a + b) % 2 == 0
  {
  }

  /** Every call a run from st makes in its first k steps has an even number of stack arguments. */
  ghost predicate EvenBefore(P: IrProgram, st: State, k: nat)
    decreases k
  {
    k > 0 ==>
      && (AtCallOf(P, st) ==> EvenArgs(|st.pend|))
      && (Step(P, st).Some? ==> EvenBefore(P, Step(P, st).value, k - 1))
  }

  lemma {:induction false} StepEven(P: IrProgram, st: State)
    requires st.Running? && EvenFrames(P, st.stack) && (AtCallOf(P, st) ==> EvenArgs(|st.pend|))
    requires Step(P, st).Some? && Step(P, st).value.Running?
    ensures EvenFrames(P, Step(P, st).value.stack)
  {
    hide IrApply, ShiftDivide, ApplyUn, IndexOf, BindParams, StackArgs;
  }

  lemma {:induction false} EvenReached(P: IrProgram, st: State, s: State, k: nat)
    requires st.Running? && s.Running? && EvenFrames(P, st.stack) && Run(Machine(P), st, s, k) && EvenBefore(P, st, k)
    ensures EvenFrames(P, s.stack)
    decreases k
  {
    hide Step, AtCallOf, EvenArgs, EvenFrames;
    if k > 0 {
      var st1 := Step(P, st).value;
      if st1.Running? {
        StepEven(P, st);
        EvenReached(P, st1, s, k - 1);
      } else {
        HaltedStays(P, st1, s, k - 1);
      }
    }
  }

  lemma {:induction false} HaltedStays(P: IrProgram, st: State, s: State, k: nat)
    requires st.Halted? && Run(Machine(P), st, s, k)
    ensures s == st && k == 0
  {
  }

  /** Of the calls a run makes, the first with an odd number of arguments on the stack. */
  lemma {:induction false} FirstOdd(P: IrProgram, st: State, s: State, k: nat) returns (s': State, k': nat)
    requires Run(Machine(P), st, s, k) && AtCallOf(P, s) && !EvenArgs(|s.pend|)
    ensures k' <= k && Run(Machine(P), st, s', k') && AtCallOf(P, s') && !EvenArgs(|s'.pend|)
    ensures EvenBefore(P, st, k')
    decreases k
  {
    hide Step, EvenArgs;
    if k == 0 {
      s', k' := s, 0;
    } else if AtCallOf(P, st) && !EvenArgs(|st.pend|) {
      s', k' := st, 0;
    } else {
      s', k' := FirstOdd(P, Step(P, st).value, s, k - 1);
      k' := k' + 1;
    }
  }

  lemma {:induction false} AllEvenBefore(P: IrProgram, st: State, k: nat)
    requires forall s :: Reaches(Machine(P), st, s) && AtCallOf(P, s) ==> EvenArgs(|s.pend|)
    ensures EvenBefore(P, st, k)
    decreases k
  {
    hide Step, EvenArgs, Reaches;
    if k > 0 {
      ReachSelf(Machine(P), st);
      if Step(P, st).Some? {
        var st1 := Step(P, st).value;
        forall s | Reaches(Machine(P), st1, s) && AtCallOf(P, s)
          ensures EvenArgs(|s.pend|)
        {
          ReachStep(Machine(P), st, st1);
          ReachTrans(Machine(P), st, st1, s);
        }
        AllEvenBefore(P, st1, k - 1);
      }
    }
  }

  /** In a run from a method's start all calls are aligned exactly when none has an odd number of
      arguments on the stack. */
  lemma {:induction false} AlignedExactly(P: IrProgram, st: State)
    requires st.Running? && st.stack == NoFrame
    ensures (forall s :: Reaches(Machine(P), st, s) && AtCallOf(P, s) ==> OnStack(P, s) % 2 == 0)
       <==> (forall s :: Reaches(Machine(P), st, s) && AtCallOf(P, s) ==> EvenArgs(|s.pend|))
  {
    hide Step, Reaches, Run;
    if forall s :: Reaches(Machine(P), st, s) && AtCallOf(P, s) ==> EvenArgs(|s.pend|) {
      forall s | Reaches(Machine(P), st, s) && AtCallOf(P, s)
        ensures OnStack(P, s) % 2 == 0
      {
        var k := ReachedIn(P, st, s);
        AllEvenBefore(P, st, k);
        EvenReached(P, st, s, k);
        EvenSum(P, s.stack);
      }
    }
    forall s | Reaches(Machine(P), st, s) && AtCallOf(P, s) && !EvenArgs(|s.pend|)
      ensures exists s' :: Reaches(Machine(P), st, s') && AtCallOf(P, s') && OnStack(P, s') % 2 != 0
    {
      var s' := OddReached(P, st, s);
    }
  }

  lemma {:induction false} ReachedIn(P: IrProgram, st: State, s: State) returns (k: nat)
    requires Reaches(Machine(P), st, s)
    ensures Run(Machine(P), st, s, k)
  {
    hide Step;
    k :| Run(Machine(P), st, s, k);
  }

  lemma {:induction false} OddReached(P: IrProgram, st: State, s: State) returns (s': State)
    requires st.Running? && st.stack == NoFrame
    requires Reaches(Machine(P), st, s) && AtCallOf(P, s) && !EvenArgs(|s.pend|)
    ensures Reaches(Machine(P), st, s') && AtCallOf(P, s') && OnStack(P, s') % 2 != 0
  {
    hide Step, Run;
    var k := ReachedIn(P, st, s);
    var k';
    s', k' := FirstOdd(P, st, s, k);
    assert Reaches(Machine(P), st, s');
    EvenReached(P, st, s', k');
    EvenSum(P, s'.stack);
  }

  /** In a run that ends, they are exactly when none of its events has. */
  lemma {:induction false} AlignedByEvents(P: IrProgram, st: State, end: State)
    requires st.Running? && st.stack == NoFrame && end.Halted? && Reaches(Machine(P), st, end)
    ensures st.tr <= end.tr
    ensures (forall s :: Reaches(Machine(P), st, s) && AtCallOf(P, s) ==> OnStack(P, s) % 2 == 0)
       <==> (forall i :: |st.tr| <= i < |end.tr| ==> EvenArgs(|end.tr[i].args|))
  {
    hide Step, Reaches, EvenArgs, OnStack, Run;
    AlignedExactly(P, st);
    var n := ReachedIn(P, st, end);
    TraceGrows(P, st, end, n);
    forall s | Reaches(Machine(P), st, s) && AtCallOf(P, s)
      ensures |st.tr| <= |s.tr| < |end.tr| && |end.tr[|s.tr|].args| == |s.pend|
    {
      var k := ReachedIn(P, st, s);
      CallIsEvent(P, st, s, k, end, n);
    }
    forall i | |st.tr| <= i < |end.tr|
      ensures exists s :: Reaches(Machine(P), st, s) && AtCallOf(P, s) && |end.tr[i].args| == |s.pend|
    {
      var s, k := EventIsCall(P, st, end, n, i);
      ReachedBy(P, st, s, k);
    }
  }

  lemma {:induction false} ReachedBy(P: IrProgram, st: State, s: State, k: nat)
    requires Run(Machine(P), st, s, k)
    ensures Reaches(Machine(P), st, s)
  {
  }

  // ----- calls that go through -----

  /** Calls whose events show that they go through: no more than seven arguments, so that their order is
      kept, and either no seventh one and an aligned start, or no call out of the program. */
  predicate EasyEvents(P: IrProgram, evs: Trace, top: int) {
    && (forall i :: 0 <= i < |evs| ==> |evs[i].args| <= 7)
    && (|| (top % 16 == 0 && forall i :: 0 <= i < |evs| ==> |evs[i].args| <= 6)
        || (forall i :: 0 <= i < |evs| ==> evs[i].f !in Externs(P)))
  }

  lemma {:induction false} EasyArrive(P: IrProgram, st: State, end: State, top: int)
    requires st.Running? && st.stack == NoFrame && end.Halted? && Reaches(Machine(P), st, end)
    requires st.tr <= end.tr && EasyEvents(P, end.tr[|st.tr|..], top)
    ensures CallsArrive(P, st, top)
  {
    hide Step, Reaches, EvenArgs, OnStack, Run, Received;
    var n := ReachedIn(P, st, end);
    AlignedByEvents(P, st, end);
    forall s | Reaches(Machine(P), st, s)
      ensures CallArrives(P, s, top)
    {
      if AtCallOf(P, s) {
        var k := ReachedIn(P, st, s);
        CallIsEvent(P, st, s, k, end, n);
        var e := end.tr[|st.tr|..][|s.tr| - |st.tr|];
        assert e == CallEvent(P, s);
        ReceivedExactly(|s.pend|);
        EvenOffset(top, OnStack(P, s));
        if P.sigs[P.code[s.pc].f].isExtern {
          SixEven(end.tr, |st.tr|);
        }
      }
    }
  }

  lemma {:induction false} SixEven(tr: Trace, n: nat)
    requires n <= |tr| && forall i :: 0 <= i < |tr[n..]| ==> |tr[n..][i].args| <= 6
    ensures forall i :: n <= i < |tr| ==> EvenArgs(|tr[i].args|)
  {
    forall i | n <= i < |tr|
      ensures EvenArgs(|tr[i].args|)
    {
      assert tr[n..][i - n] == tr[i];
    }
  }
}
