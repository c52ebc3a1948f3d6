/** Every translated program, with its temporaries renamed or not, has the shape the lowering relies on. */
module GeneratedShape {
  import opened Words
  import opened Source
  import opened Ir
  import opened IrGen
  import opened IrLayout
  import opened TempFlow
  import opened TempPositions
  import opened Optimizer
  import opened ReuseCorrect
  import opened Lowering
  import opened Frames

  /** Well formed on its own: nothing is open at the end. */
  ghost predicate Closed(c: Code) {
    Structured(c) && JumpsLocal(c) && Within(c, |c|) == None
  }

  lemma {:induction false} WithinPrefix(c: Code, d: Code, i: nat)
    requires i <= |c|
    ensures Within(c + d, i) == Within(c, i)
    decreases i
  {
    if i > 0 {
      WithinPrefix(c, d, i - 1);
    }
  }

  /** Inside a piece without boundaries the method does not change. */
  lemma {:induction false} WithinPiece(c: Code, i: nat, j: nat)
    requires i <= j <= |c| && forall k :: i <= k < j ==> !FrameMark(c[k])
    ensures Within(c, j) == Within(c, i)
    decreases j
  {
    if i < j {
      WithinPiece(c, i, j - 1);
    }
  }

  lemma {:induction false} MethodInPrefix(c: Code, d: Code, f: string)
    requires HasMethod(c, f)
    ensures HasMethod(c + d, f) && EnterOf(c + d, f) == EnterOf(c, f) && LeaveAt(c + d, f) == LeaveAt(c, f)
  {
    IndexOfAppend(c, d, IEnter(f));
    IndexOfAppend(c, d, ILeave(f));
  }

  lemma {:induction false} StructuredPrefix(c: Code, d: Code, i: nat)
    requires i < |c| && StructuredAt(c, i)
    ensures StructuredAt(c + d, i)
  {
    hide HasMethod;
    WithinPrefix(c, d, i);
    assert (c + d)[i] == c[i];
    match c[i]
    case IEnter(f) => MethodInPrefix(c, d, f);
    case IExtern(_) =>
    case _ => MethodInPrefix(c, d, Within(c, i).value);
  }

  lemma {:induction false} JumpsPrefix(c: Code, d: Code, i: nat)
    requires Structured(c) && i < |c| && (c[i].IJmp? || c[i].IJmpf?) && JumpLocal(c, i)
    ensures JumpLocal(c + d, i)
  {
    var l := ILabel(c[i].l);
    IndexOfAppend(c, d, l);
    WithinPrefix(c, d, IndexOf(c, l).value);
    WithinPrefix(c, d, i);
  }

  /** The code of one method with body b. */
  function Wrapped(f: string, b: Code): Code {
    [IEnter(f)] + b + [ILeave(f)]
  }

  /** A LEAVE of f in closed code means an ENTER of f. */
  lemma {:induction false} NoLeave(c: Code, f: string)
    requires Structured(c) && IEnter(f) !in c
    ensures ILeave(f) !in c
  {
    if ILeave(f) in c {
      var i :| 0 <= i < |c| && c[i] == ILeave(f);
      OwnLeave(c, i);
    }
  }

  lemma {:induction false} WrappedWithin(c: Code, f: string, b: Code)
    requires Structured(c) && IEnter(f) !in c && NoFrames(b) && Within(c, |c|) == None
    ensures var d := c + Wrapped(f, b);
            && |d| == |c| + |b| + 2 && Within(d, |c|) == None && Within(d, |d|) == None
            && HasMethod(d, f) && EnterOf(d, f) == |c| && LeaveAt(d, f) == |d| - 1
            && (forall i :: |c| < i < |d| ==> Within(d, i) == Some(f))
            && (forall i :: |c| < i < |d| - 1 ==> !FrameMark(d[i]) && d[i] == b[i - |c| - 1])
  {
    hide Structured, IndexOf, NoFrames, Within, HasMethod;
    WrappedParts(c, f, b);
    WrappedMarks(c, f, b);
    WrappedMethod(c, f, b);
    WrappedInside(c, f, b);
  }

  lemma {:induction false} WrappedParts(c: Code, f: string, b: Code)
    requires NoFrames(b)
    ensures var d := c + Wrapped(f, b);
            && |d| == |c| + |b| + 2 && d[|c|] == IEnter(f) && d[|d| - 1] == ILeave(f)
            && (forall i :: |c| < i < |d| - 1 ==> !FrameMark(d[i]) && d[i] == b[i - |c| - 1])
  {
    var w := Wrapped(f, b);
    var d := c + w;
    forall i | |c| < i < |d| - 1
      ensures d[i] == b[i - |c| - 1] && !FrameMark(d[i])
    {
      assert d[i] == w[i - |c|];
    }
    assert d[|c|] == w[0] && d[|d| - 1] == w[|w| - 1];
  }

  lemma {:induction false} WrappedMethod(c: Code, f: string, b: Code)
    requires var d := c + Wrapped(f, b);
             && IndexOf(d, IEnter(f)) == Some(|c|) && IndexOf(d, ILeave(f)) == Some(|c| + |b| + 1)
             && (forall i :: |c| < i < |d| - 1 ==> !FrameMark(d[i]))
    ensures var d := c + Wrapped(f, b); HasMethod(d, f) && EnterOf(d, f) == |c| && LeaveAt(d, f) == |d| - 1
  {
    hide IndexOf;
  }

  lemma {:induction false} WrappedInside(c: Code, f: string, b: Code)
    requires Within(c, |c|) == None
    requires var d := c + Wrapped(f, b);
             && d[|c|] == IEnter(f) && d[|d| - 1] == ILeave(f) && (forall i :: |c| < i < |d| - 1 ==> !FrameMark(d[i]))
    ensures var d := c + Wrapped(f, b);
            && Within(d, |c|) == None && Within(d, |d|) == None && forall i :: |c| < i < |d| ==> Within(d, i) == Some(f)
  {
    var d := c + Wrapped(f, b);
    WithinPrefix(c, Wrapped(f, b), |c|);
    forall i | |c| < i < |d|
      ensures Within(d, i) == Some(f)
    {
      WithinPiece(d, |c| + 1, i);
    }
  }

  lemma {:induction false} WrappedMarks(c: Code, f: string, b: Code)
    requires Structured(c) && IEnter(f) !in c && NoFrames(b)
    ensures var d := c + Wrapped(f, b);
            IndexOf(d, IEnter(f)) == Some(|c|) && IndexOf(d, ILeave(f)) == Some(|c| + |b| + 1)
  {
    hide Structured, IndexOf;
    var w := Wrapped(f, b);
    NoLeave(c, f);
    IndexOfUnique(w, IEnter(f), 0);
    IndexOfUnique(w, ILeave(f), |b| + 1);
    IndexOfAppend(c, w, IEnter(f));
    IndexOfAppend(c, w, ILeave(f));
  }

  lemma {:induction false} AddMethod(c: Code, f: string, b: Code)
    requires Closed(c) && IEnter(f) !in c && NoFrames(b) && JumpsInside(b)
    requires forall i, j :: 0 <= i < |c| && 0 <= j < |b| && c[i].ILabel? ==> c[i] != b[j]
    ensures Closed(c + Wrapped(f, b))
  {
    hide Within, HasMethod;
    var w := Wrapped(f, b);
    var d := c + w;
    WrappedWithin(c, f, b);
    forall i | 0 <= i < |d|
      ensures StructuredAt(d, i)
    {
      if i < |c| {
        StructuredPrefix(c, w, i);
      } else {
        assert d[|c|] == w[0];
        assert d[|d| - 1] == w[|w| - 1];
      }
    }
    forall i | 0 <= i < |d| && (d[i].IJmp? || d[i].IJmpf?)
      ensures JumpLocal(d, i)
    {
      if i < |c| {
        JumpsPrefix(c, w, i);
      } else {
        assert d[|c|] == w[0];
        assert d[|d| - 1] == w[|w| - 1];
        NewJump(c, f, b, i);
      }
    }
  }

  lemma {:induction false} NewJump(c: Code, f: string, b: Code, i: nat)
    requires Structured(c) && IEnter(f) !in c && NoFrames(b) && JumpsInside(b) && Within(c, |c|) == None
    requires forall i, j :: 0 <= i < |c| && 0 <= j < |b| && c[i].ILabel? ==> c[i] != b[j]
    requires var d := c + Wrapped(f, b); |c| < i < |d| - 1 && (d[i].IJmp? || d[i].IJmpf?)
    ensures JumpLocal(c + Wrapped(f, b), i)
  {
    hide Within, Structured;
    var w := Wrapped(f, b);
    WrappedWithin(c, f, b);
    var l := ILabel((c + w)[i].l);
    assert l in b;
    IndexOfAppend([IEnter(f)] + b, [ILeave(f)], l);
    IndexOfAppend([IEnter(f)], b, l);
    IndexOfAppend(c, w, l);
  }

  lemma {:induction false} AddExtern(c: Code, f: string)
    requires Closed(c)
    ensures Closed(c + [IExtern(f)])
  {
    hide HasMethod;
    var d := c + [IExtern(f)];
    WithinPrefix(c, [IExtern(f)], |c|);
    forall i | 0 <= i < |d|
      ensures StructuredAt(d, i)
    {
      if i < |c| {
        StructuredPrefix(c, [IExtern(f)], i);
      }
    }
    forall i | 0 <= i < |d| && (d[i].IJmp? || d[i].IJmpf?)
      ensures JumpLocal(d, i)
    {
      JumpsPrefix(c, [IExtern(f)], i);
    }
  }

  /** Every method is one ENTER ... LEAVE region, and its jumps stay inside. */
  lemma {:induction false} ProgramClosed(ms: seq<Method>, opt: bool)
    requires DistinctMethods(ms)
    ensures Closed(GenMethods(ms, 0, 0, opt).code)
    decreases |ms|
  {
    hide Closed, GenList;
    if ms == [] {
      NothingClosed();
    } else {
      var ms0, m := ms[..|ms| - 1], ms[|ms| - 1];
      assert ms == ms0 + [m];
      ProgramClosed(ms0, opt);
      var g := GenMethods(ms0, 0, 0, opt);
      if m.isExtern {
        AddExtern(g.code, m.name);
      } else {
        EnterOnlyIfDeclared(ms0, opt, m.name);
        NotDeclared(ms0, m);
        ProgramLabelled(ms0, opt);
        ListLabelled(m.body, g.t, g.l, opt);
        AddMethod(g.code, m.name, GenList(m.body, g.t, g.l, opt).code);
      }
    }
  }

  lemma {:induction false} NothingClosed()
    ensures Closed([])
  {
  }

  lemma {:induction false} NotDeclared(ms: seq<Method>, m: Method)
    requires DistinctMethods(ms + [m])
    ensures Find(ms, m.name).None?
  {
    assert (ms + [m])[|ms|] == m && forall i :: 0 <= i < |ms| ==> (ms + [m])[i] == ms[i];
    if Find(ms, m.name).Some? {
      var _ := FoundAt(ms, m.name);
    }
  }

  lemma {:induction false} FoundAt(ms: seq<Method>, f: string) returns (i: nat)
    requires Find(ms, f).Some?
    ensures i < |ms| && ms[i].name == f && ms[i] == Find(ms, f).value
    decreases |ms|
  {
    if ms[0].name == f {
      i := 0;
    } else {
      i := FoundAt(ms[1..], f);
      i := i + 1;
    }
  }

  /** The discipline's count of open PARAMs is the generator's. */
  lemma {:induction false} PendIsCount(code: Code, i: nat)
    requires Disciplined(code) && i <= |code|
    ensures FlowAt(code, i).pend == ParamCount(code, i)
    decreases i
  {
    hide Consume;
    if i > 0 {
      PendIsCount(code, i - 1);
      FlowNext(code, i - 1);
    } else {
      assert code[..0] == [];
    }
  }

  lemma {:induction false} CountWhere(code: Code, i: nat)
    requires Disciplined(code) && i < |code| && ParamCount(code, i) > 0
    ensures code[i].IParam? || code[i].ICall?
  {
    hide Consume;
    PendIsCount(code, i);
    FlowNext(code, i);
  }

  /** Every CALL directly follows exactly its own PARAM run: no other instruction meets an open run. */
  lemma {:induction false} DisciplinedRuns(code: Code)
    requires Disciplined(code)
    ensures ParamRuns(code)
  {
    hide Disciplined;
    forall i | 0 <= i < |code| && ParamCount(code, i) > 0
      ensures code[i].IParam? || code[i].ICall?
    {
      CountWhere(code, i);
    }
  }

  // ----- renaming keeps the shape -----

  lemma {:induction false} SameShape(code: Code, r: seq<nat>, i: nat)
    requires i <= |code|
    ensures Within(RenameCode(code, r), i) == Within(code, i)
    ensures ParamCount(RenameCode(code, r), i) == ParamCount(code, i)
    decreases i
  {
    if i > 0 {
      SameShape(code, r, i - 1);
    }
  }

  lemma {:induction false} SameMethod(code: Code, r: seq<nat>, f: string)
    requires HasMethod(code, f)
    ensures var c := RenameCode(code, r);
            HasMethod(c, f) && EnterOf(c, f) == EnterOf(code, f) && LeaveAt(c, f) == LeaveAt(code, f)
  {
    hide IndexOf, RenameCode;
    MarkSame(code, r, IEnter(f));
    MarkSame(code, r, ILeave(f));
  }

  lemma {:induction false} SameKind(code: Code, r: seq<nat>, i: nat)
    requires i < |code|
    ensures var a, b := code[i], RenameCode(code, r)[i];
            && (a.IParam? <==> b.IParam?) && (a.ICall? <==> b.ICall?) && (a.IJmp? <==> b.IJmp?)
                && (a.IJmpf? <==> b.IJmpf?)
            && (a.IJmp? || a.IJmpf? ==> a.l == b.l)
  {
  }

  lemma {:induction false} RenamedJump(code: Code, r: seq<nat>, i: nat)
    requires i < |code| && (code[i].IJmp? || code[i].IJmpf?) && JumpLocal(code, i)
    ensures var c := RenameCode(code, r); (c[i].IJmp? || c[i].IJmpf?) && JumpLocal(c, i)
  {
    hide Within, IndexOf, RenameCode;
    SameKind(code, r, i);
    MarkSame(code, r, ILabel(code[i].l));
    SameShape(code, r, i);
    SameShape(code, r, IndexOf(code, ILabel(code[i].l)).value);
  }

  /** Renaming temporaries keeps the shape. */
  lemma {:induction false} RenamedShape(code: Code, r: seq<nat>)
    requires Structured(code) && JumpsLocal(code) && ParamRuns(code)
    ensures var c := RenameCode(code, r); Structured(c) && JumpsLocal(c) && ParamRuns(c)
  {
    hide Within, ParamCount, RenameCode, StructuredAt, JumpLocal;
    forall i | 0 <= i < |code|
      ensures StructuredAt(RenameCode(code, r), i)
      ensures var c := RenameCode(code, r);
              && (ParamCount(c, i) > 0 ==> c[i].IParam? || c[i].ICall?)
              && (c[i].IJmp? || c[i].IJmpf? ==> JumpLocal(c, i))
    {
      RenamedStructuredAt(code, r, i);
      SameShape(code, r, i);
      SameKind(code, r, i);
      if code[i].IJmp? || code[i].IJmpf? {
        RenamedJump(code, r, i);
      }
    }
  }

  lemma {:induction false} RenamedStructuredAt(code: Code, r: seq<nat>, i: nat)
    requires Structured(code) && i < |code|
    ensures StructuredAt(RenameCode(code, r), i)
  {
    hide Within, HasMethod, IndexOf, RenameCode;
    assert StructuredAt(code, i);
    SameShape(code, r, i);
    match code[i]
    case IEnter(f) => SameMethod(code, r, f);
    case IExtern(_) =>
    case _ => SameMethod(code, r, Within(code, i).value);
  }
}
