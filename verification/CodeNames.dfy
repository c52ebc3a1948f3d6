/** The temporaries that the code of a program mentions, before and after reuse. */
module CodeNames {
  import opened Source
  import opened Ir
  import opened IrGen
  import opened TempFlow
  import opened TempPositions
  import opened TempReuse
  import opened ReuseOptimal
  import opened TempNeed
  import opened Optimizer

  /** Some instruction mentions temporary t. */
  ghost predicate MentionsTemp(code: Code, t: nat) {
    exists i: nat :: MentionedAt(code, i, t)
  }

  /** Exactly the first n temporaries are mentioned. */
  ghost predicate MentionsFirst(code: Code, n: nat) {
    forall t: nat :: MentionsTemp(code, t) <==> t < n
  }

  lemma {:induction false} CellsRenamed(i: Instr, r: seq<nat>)
    ensures |Cells(RenameInstr(i, r))| == |Cells(i)|
    ensures forall j :: 0 <= j < |Cells(i)| ==> Cells(RenameInstr(i, r))[j] == RenameName(Cells(i)[j], r)
  {
  }

  lemma {:induction false} MentionedRenamed(code: Code, r: seq<nat>, i: nat, u: nat)
    requires MentionedAt(code, i, u) && u < |r|
    ensures MentionedAt(RenameCode(code, r), i, r[u])
  {
    hide Cells;
    CellsRenamed(code[i], r);
    var j :| 0 <= j < |Cells(code[i])| && Cells(code[i])[j] == Tmp(u);
    assert Cells(RenameCode(code, r)[i])[j] == Tmp(r[u]);
  }

  lemma {:induction false} MentionedBefore(code: Code, r: seq<nat>, i: nat, t: nat) returns (u: nat)
    requires MentionedAt(RenameCode(code, r), i, t)
    requires forall k: nat :: MentionedAt(code, i, k) ==> k < |r|
    ensures u < |r| && r[u] == t && MentionedAt(code, i, u)
  {
    hide Cells;
    CellsRenamed(code[i], r);
    var cs := Cells(RenameCode(code, r)[i]);
    var j :| 0 <= j < |cs| && cs[j] == Tmp(t);
    assert cs[j] == RenameName(Cells(code[i])[j], r);
    u := Cells(code[i])[j].k;
    assert MentionedAt(code, i, u);
  }

  /** The code of a program mentions each of the temporaries it counts, and no other. */
  lemma {:induction false} TranslatedNames(p: Program, opt: bool)
    ensures MentionsFirst(Translate(p, opt).code, GenMethods(p.methods, 0, 0, opt).t)
  {
    hide GenMethods, Cells, Reads, Writes, SingleUse;
    TemporaryDiscipline(p, opt);
    var code, n := Translate(p, opt).code, GenMethods(p.methods, 0, 0, opt).t;
    forall t: nat | t < n
      ensures MentionsTemp(code, t)
    {
      assert UsedOnce(code, t);
      var d: nat :| SingleUse(code, t, d);
      DefinedMentioned(code, d, t);
    }
  }

  lemma {:induction false} DefinedMentioned(code: Code, d: nat, t: nat)
    requires SingleUse(code, t, d)
    ensures MentionedAt(code, d, t)
  {
  }

  lemma {:induction false} RenamedNames(code: Code, n: nat, r: seq<nat>)
    requires MentionsFirst(code, n) && |r| == n
    ensures forall t: nat :: MentionsTemp(RenameCode(code, r), t) <==> t in NamesUsed(r)
  {
    hide MentionedAt;
    var code1 := RenameCode(code, r);
    forall t: nat
      ensures MentionsTemp(code1, t) <==> t in NamesUsed(r)
    {
      if MentionsTemp(code1, t) {
        var i: nat :| MentionedAt(code1, i, t);
        assert forall k: nat :: MentionedAt(code, i, k) ==> MentionsTemp(code, k);
        var u := MentionedBefore(code, r, i, t);
      }
      if t in NamesUsed(r) {
        var u: nat :| u < |r| && r[u] == t;
        assert MentionsTemp(code, u);
        var i: nat :| MentionedAt(code, i, u);
        MentionedRenamed(code, r, i, u);
      }
    }
  }

  /** After reuse the code of a program mentions exactly the temporaries below the largest need of its
      expressions. */
  lemma {:induction false} ReusedNames(p: Program)
    ensures Disciplined(Translate(p, true).code)
    ensures MentionsFirst(Reused(Translate(p, true).code), MethodsNeed(p.methods, true))
  {
    hide GenMethods, FinalCells, MentionsTemp, NamesUsed, Occurrences, Peak;
    var code, n := Translate(p, true).code, GenMethods(p.methods, 0, 0, true).t;
    ProgramFlow(p.methods, true);
    TranslatedNames(p, true);
    ReuseUsesNeed(p, true);
    RenamedNames(code, n, FinalCells(Occurrences(code), n));
  }
}
