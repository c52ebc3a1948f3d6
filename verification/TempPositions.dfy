/** The discipline of temporaries over positions in the code: where each one is defined and read. */
module TempPositions {
  import opened Words
  import opened Source
  import opened Ir
  import opened IrGen
  import opened TempFlow

  lemma {:induction false} ConsumeMember(live: set<nat>, ns: seq<Name>, t: nat)
    requires Consume(live, ns).Some?
    ensures Tmp(t) in ns ==> t in live
    ensures t in Consume(live, ns).value ==> t in live
    decreases |ns|
  {
    if ns != [] {
      match ns[0]
      case Var(_) => ConsumeMember(live, ns[1..], t);
      case Tmp(k) => ConsumeMember(live - {k}, ns[1..], t);
    }
  }

  lemma {:induction false} FlowPrefix(code: Code, s: Flow, pc: nat)
    requires pc <= |code| && FlowRun(code, s).Some?
    ensures FlowRun(code[..pc], s).Some?
    decreases |code|
  {
    if pc < |code| {
      var c0 := code[..|code| - 1];
      assert c0[..pc] == code[..pc];
      FlowPrefix(c0, s, pc);
    } else {
      assert code[..pc] == code;
    }
  }

  lemma {:induction false} LiveBelow(code: Code)
    requires Disciplined(code)
    ensures Below(FlowRun(code, START).value.live, FlowRun(code, START).value.next)
    decreases |code|
  {
    if code != [] {
      var c0, i := code[..|code| - 1], code[|code| - 1];
      LiveBelow(c0);
      var s := FlowRun(c0, START).value;
      forall t | t in FlowStep(i, s).value.live
        ensures t < FlowStep(i, s).value.next
      {
        ConsumeMember(s.live, Reads(i), t);
      }
    }
  }

  /** The discipline's state before instruction pc. */
  ghost function FlowAt(code: Code, pc: nat): Flow
    requires Disciplined(code) && pc <= |code|
  {
    FlowPrefix(code, START, pc);
    FlowRun(code[..pc], START).value
  }

  lemma {:induction false} FlowNext(code: Code, pc: nat)
    requires Disciplined(code) && pc < |code|
    ensures FlowStep(code[pc], FlowAt(code, pc)) == Some(FlowAt(code, pc + 1))
    ensures Below(FlowAt(code, pc).live, FlowAt(code, pc).next)
  {
    FlowPrefix(code, START, pc + 1);
    assert code[..pc + 1] == code[..pc] + [code[pc]];
    FlowSnoc(code[..pc], code[pc], START);
    LiveBelow(code[..pc]);
  }

  ghost predicate ReadAt(code: Code, j: nat, t: nat) {
    j < |code| && Tmp(t) in Reads(code[j])
  }

  /** What is read is live. */
  lemma {:induction false} ReadIsLive(code: Code, pc: nat, t: nat)
    requires Disciplined(code) && ReadAt(code, pc, t)
    ensures t in FlowAt(code, pc).live
  {
    FlowNext(code, pc);
    ConsumeMember(FlowAt(code, pc).live, Reads(code[pc]), t);
  }

  lemma {:induction false} LiveStep(code: Code, pc: nat, t: nat)
    requires Disciplined(code) && pc < |code| && t in FlowAt(code, pc + 1).live
    ensures !Boundary(code[pc])
    ensures t in FlowAt(code, pc).live || (Writes(code[pc]) == Some(Tmp(t)) && t == FlowAt(code, pc).next)
  {
    FlowNext(code, pc);
    ConsumeMember(FlowAt(code, pc).live, Reads(code[pc]), t);
  }

  /** A temporary that is not live and not new never becomes live again. */
  lemma {:induction false} GoneStaysGone(code: Code, pc: nat, j: nat, t: nat)
    requires Disciplined(code) && pc <= j <= |code|
    requires t < FlowAt(code, pc).next && t !in FlowAt(code, pc).live
    ensures t < FlowAt(code, j).next && t !in FlowAt(code, j).live
    decreases j
  {
    if pc < j {
      GoneStaysGone(code, pc, j - 1, t);
      FlowNext(code, j - 1);
      ConsumeMember(FlowAt(code, j - 1).live, Reads(code[j - 1]), t);
    }
  }

  lemma {:induction false} NextGrows(code: Code, pc: nat, j: nat)
    requires Disciplined(code) && pc <= j <= |code|
    ensures FlowAt(code, pc).next <= FlowAt(code, j).next
    decreases j
  {
    if pc < j {
      NextGrows(code, pc, j - 1);
      FlowNext(code, j - 1);
    }
  }

  // ----- positions -----

  ghost predicate DefinedAt(code: Code, i: nat, t: nat) {
    i < |code| && Writes(code[i]) == Some(Tmp(t))
  }

  lemma {:induction false} DefinedNext(code: Code, i: nat, t: nat)
    requires Disciplined(code) && DefinedAt(code, i, t)
    ensures FlowAt(code, i).next == t && FlowAt(code, i + 1).next == t + 1
  {
    FlowNext(code, i);
  }

  /** Definitions come in index order, so no temporary has two. */
  lemma {:induction false} DefinedInOrder(code: Code, i: nat, j: nat, t: nat, u: nat)
    requires Disciplined(code) && DefinedAt(code, i, t) && DefinedAt(code, j, u)
    ensures (i < j <==> t < u) && (i == j <==> t == u)
  {
    DefinedNext(code, i, t);
    DefinedNext(code, j, u);
    if i < j {
      NextGrows(code, i + 1, j);
    } else if j < i {
      NextGrows(code, j + 1, i);
    }
  }

  lemma {:induction false} StartsEmpty(code: Code)
    requires Disciplined(code)
    ensures FlowAt(code, 0) == START
  {
    assert code[..0] == [];
  }

  lemma {:induction false} DefinedSomewhere(code: Code, i: nat, t: nat) returns (d: nat)
    requires Disciplined(code) && i <= |code| && t < FlowAt(code, i).next
    ensures d < i && DefinedAt(code, d, t)
    decreases i
  {
    StartsEmpty(code);
    FlowNext(code, i - 1);
    if t < FlowAt(code, i - 1).next {
      d := DefinedSomewhere(code, i - 1, t);
    } else {
      d := i - 1;
    }
  }

  /** A live temporary was defined earlier, and only straight code has been run since. */
  lemma {:induction false} LiveSince(code: Code, i: nat, t: nat) returns (d: nat)
    requires Disciplined(code) && i <= |code| && t in FlowAt(code, i).live
    ensures d < i && DefinedAt(code, d, t) && forall m :: d <= m < i ==> !Boundary(code[m])
    decreases i
  {
    StartsEmpty(code);
    LiveStep(code, i - 1, t);
    if Writes(code[i - 1]) == Some(Tmp(t)) {
      d := i - 1;
    } else {
      d := LiveSince(code, i - 1, t);
    }
  }

  ghost predicate OnceIn(ns: seq<Name>, t: nat) {
    forall a, b :: 0 <= a < b < |ns| ==> !(ns[a] == ns[b] == Tmp(t))
  }

  /** What has been read is gone. */
  lemma {:induction false} ReadIsGone(code: Code, j: nat, t: nat)
    requires Disciplined(code) && ReadAt(code, j, t)
    ensures t < FlowAt(code, j + 1).next && t !in FlowAt(code, j + 1).live
    ensures OnceIn(Reads(code[j]), t)
  {
    FlowNext(code, j);
    ReadIsLive(code, j, t);
    ConsumedGone(FlowAt(code, j).live, Reads(code[j]), t);
  }

  lemma {:induction false} ConsumedGone(live: set<nat>, ns: seq<Name>, t: nat)
    requires Consume(live, ns).Some? && Tmp(t) in ns
    ensures t !in Consume(live, ns).value
    ensures OnceIn(ns, t)
    decreases |ns|
  {
    var rest := ns[1..];
    if ns[0] == Tmp(t) {
      ConsumeMember(live - {t}, rest, t);
      assert Tmp(t) !in rest;
      forall b | 0 < b < |ns|
        ensures ns[b] != Tmp(t)
      {
        assert ns[b] == rest[b - 1];
      }
    } else {
      ConsumedGone(if ns[0].Tmp? then live - {ns[0].k} else live, rest, t);
      forall a, b | 0 <= a < b < |ns|
        ensures !(ns[a] == ns[b] == Tmp(t))
      {
        assert ns[b] == rest[b - 1] && (a > 0 ==> ns[a] == rest[a - 1]);
      }
    }
  }

  lemma {:induction false} ReadOnce(code: Code, i: nat, j: nat, t: nat)
    requires Disciplined(code) && ReadAt(code, i, t) && ReadAt(code, j, t)
    ensures i == j
  {
    if i < j {
      ReadIsGone(code, i, t);
      GoneStaysGone(code, i + 1, j, t);
      ReadIsLive(code, j, t);
    } else if j < i {
      ReadIsGone(code, j, t);
      GoneStaysGone(code, j + 1, i, t);
      ReadIsLive(code, i, t);
    }
  }

  /** In code, position d defines t and is the only one to do so; t is read at most once, by one operand,
      later than d, and with no label, jump, return or method boundary in between. */
  ghost predicate SingleUse(code: Code, t: nat, d: nat) {
    && DefinedAt(code, d, t)
    && (forall i: nat :: DefinedAt(code, i, t) ==> i == d)
    && (forall i: nat, j: nat :: ReadAt(code, i, t) && ReadAt(code, j, t) ==> i == j)
    && (forall j: nat :: ReadAt(code, j, t) ==> d < j && forall m :: d < m < j ==> !Boundary(code[m]))
    && (forall j: nat :: ReadAt(code, j, t) ==> OnceIn(Reads(code[j]), t))
  }

  ghost predicate UsedOnce(code: Code, t: nat) {
    exists d: nat :: SingleUse(code, t, d)
  }

  lemma {:induction false} SingleUses(code: Code, t: nat)
    requires Disciplined(code) && t < FlowAt(code, |code|).next
    ensures UsedOnce(code, t)
  {
    var d := DefinedSomewhere(code, |code|, t);
    forall i: nat | DefinedAt(code, i, t)
      ensures i == d
    {
      DefinedInOrder(code, i, d, t, t);
    }
    forall j: nat | ReadAt(code, j, t)
      ensures d < j && forall m :: d < m < j ==> !Boundary(code[m])
      ensures OnceIn(Reads(code[j]), t)
    {
      ReadIsLive(code, j, t);
      var d1 := LiveSince(code, j, t);
      DefinedInOrder(code, d1, d, t, t);
      ReadIsGone(code, j, t);
    }
    forall i: nat, j: nat | ReadAt(code, i, t) && ReadAt(code, j, t)
      ensures i == j
    {
      ReadOnce(code, i, j, t);
    }
    assert SingleUse(code, t, d);
  }

  ghost predicate MentionedAt(code: Code, i: nat, t: nat) {
    i < |code| && Tmp(t) in Cells(code[i])
  }

  /** A temporary mentioned anywhere is below the counter at the end. */
  lemma {:induction false} MentionedBelow(code: Code, i: nat, t: nat)
    requires Disciplined(code) && MentionedAt(code, i, t)
    ensures t < FlowAt(code, |code|).next && (ReadAt(code, i, t) || DefinedAt(code, i, t))
  {
    FlowNext(code, i);
    CellKinds(code[i], t);
    if ReadAt(code, i, t) {
      ReadIsLive(code, i, t);
    }
    NextGrows(code, i + 1, |code|);
  }

  lemma {:induction false} CellKinds(i: Instr, t: nat)
    requires Tmp(t) in Cells(i) && !(i.ILoad? && i.var1.Tmp?)
    ensures Tmp(t) in Reads(i) || Writes(i) == Some(Tmp(t))
  {
  }

  /** Every program: each temporary below the final counter is defined exactly once and read at most once,
      later, in straight code; no other temporary is mentioned; definitions come in index order. */
  lemma {:induction false} TemporaryDiscipline(p: Program, opt: bool)
    ensures var code, n := Translate(p, opt).code, GenMethods(p.methods, 0, 0, opt).t;
            && (forall t: nat :: t < n ==> UsedOnce(code, t))
            && (forall i: nat, t: nat :: MentionedAt(code, i, t) ==>
                  t < n && (ReadAt(code, i, t) || DefinedAt(code, i, t)))
            && (forall i: nat, j: nat, t: nat, u: nat :: DefinedAt(code, i, t) && DefinedAt(code, j, u) ==>
                  (i < j <==> t < u))
  {
    hide GenMethods, UsedOnce, DefinedAt, ReadAt, MentionedAt, FlowRun;
    ProgramFlow(p.methods, opt);
    var code, n := Translate(p, opt).code, GenMethods(p.methods, 0, 0, opt).t;
    EndsAt(code, n);
    forall t: nat | t < n
      ensures UsedOnce(code, t)
    {
      SingleUses(code, t);
    }
    forall i: nat, t: nat | MentionedAt(code, i, t)
      ensures t < n && (ReadAt(code, i, t) || DefinedAt(code, i, t))
    {
      MentionedBelow(code, i, t);
    }
    forall i: nat, j: nat, t: nat, u: nat | DefinedAt(code, i, t) && DefinedAt(code, j, u)
      ensures i < j <==> t < u
    {
      DefinedInOrder(code, i, j, t, u);
    }
  }

  lemma {:induction false} EndsAt(code: Code, n: nat)
    requires Accepted(code, START, n)
    ensures Disciplined(code) && FlowAt(code, |code|).next == n
  {
    assert code[..|code|] == code;
  }
}
