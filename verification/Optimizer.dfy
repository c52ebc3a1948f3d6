/** The optimizer as it runs: a list of entries, and one shared name cell per temporary. Every
    occurrence of a temporary in the code is a pointer to its cell, so overwriting the cell renames
    them all. */
module Optimizer {
  import opened Words
  import opened Ir
  import opened IrGen
  import opened TempReuse
  import opened TempFlow

  // ----- what the generator hands over -----

  lemma {:induction false} CountSnoc(occs: seq<nat>, x: nat, cell: seq<nat>, k: nat, f: nat)
    requires k <= |occs| && Bounded(occs, |cell|) && x < |cell|
    ensures Bounded(occs + [x], |cell|)
    ensures CountFrom(occs + [x], cell, k, f) == CountFrom(occs, cell, k, f) + (if cell[x] == f then 1 else 0)
    decreases |occs| - k
  {
    if k < |occs| {
      CountSnoc(occs, x, cell, k + 1, f);
    } else {
      assert CountFrom(occs + [x], cell, k + 1, f) == 0;
    }
  }

  /** tab has the entries of the first temporaries in index order, each with its number of occurrences. */
  ghost predicate Tallied(tab: seq<Use>, occs: seq<nat>, n: nat)
    requires Bounded(occs, n)
  {
    && |tab| == SeenAt(occs, |occs|) <= n
    && (forall i :: 0 <= i < |tab| ==> tab[i] == Use(i, CountFrom(occs, Identity(n), 0, i)))
    && (forall i :: |tab| <= i < n ==> CountFrom(occs, Identity(n), 0, i) == 0)
  }

  /** One more occurrence, of a temporary seen before or of the next new one. */
  lemma {:induction false} TalliedMore(tab: seq<Use>, occs: seq<nat>, x: nat, n: nat)
    requires Bounded(occs, n) && x < n && x <= SeenAt(occs, |occs|) && Tallied(tab, occs, n)
    ensures Bounded(occs + [x], n) && Tallied(Bump(tab, x), occs + [x], n)
  {
    hide CountFrom, SeenAt, Bump;
    SeenLast(occs, x);
    BumpAt(tab, x, x);
    forall i | 0 <= i < n
      ensures CountFrom(occs + [x], Identity(n), 0, i) == CountFrom(occs, Identity(n), 0, i) + (if x == i then 1 else 0)
    {
      CountSnoc(occs, x, Identity(n), 0, i);
    }
  }

  lemma {:induction false} SeenLast(occs: seq<nat>, x: nat)
    ensures SeenAt(occs + [x], |occs| + 1) == if x == SeenAt(occs, |occs|) then x + 1 else SeenAt(occs, |occs|)
  {
    SeenPrefix(occs, [x], |occs|);
  }

  lemma {:induction false} OrderPrefix(occs: seq<nat>, x: nat)
    requires InOrder(occs + [x])
    ensures InOrder(occs) && x <= SeenAt(occs, |occs|)
  {
    hide SeenAt;
    forall k | 0 <= k < |occs|
      ensures occs[k] <= SeenAt(occs, k)
    {
      SeenPrefix(occs, [x], k);
      assert (occs + [x])[k] == occs[k];
    }
    SeenPrefix(occs, [x], |occs|);
    assert (occs + [x])[|occs|] == x;
  }

  /** The use-count list has one entry per temporary, in index order, holding its number of
      occurrences. */
  lemma {:induction false} TallyInOrder(occs: seq<nat>, n: nat)
    requires InOrder(occs) && Bounded(occs, n)
    ensures Tallied(Tally(occs), occs, n)
    decreases |occs|
  {
    if occs == [] {
      assert forall i :: CountFrom([], Identity(n), 0, i) == 0;
    } else {
      hide Tallied, InOrder, SeenAt;
      var a, x := occs[..|occs| - 1], occs[|occs| - 1];
      assert occs == a + [x];
      OrderPrefix(a, x);
      TallyInOrder(a, n);
      TalliedMore(Tally(a), a, x, n);
    }
  }

  /** The temporaries of checked code first appear in index order. */
  lemma {:induction false} FlowInOrder(code: Code)
    requires Disciplined(code)
    ensures var occs := Occurrences(code);
            var s := FlowRun(code, START).value;
            && InOrder(occs) && SeenAt(occs, |occs|) == s.next && Bounded(occs, s.next) && Below(s.live, s.next)
    decreases |code|
  {
    if code != [] {
      var c0, i := code[..|code| - 1], code[|code| - 1];
      FlowInOrder(c0);
      var s := FlowRun(c0, START).value;
      StepInOrder(Occurrences(c0), i, s);
    }
  }

  lemma {:induction false} OldOccurrence(occs: seq<nat>, t: nat)
    requires InOrder(occs) && Bounded(occs, SeenAt(occs, |occs|)) && t < SeenAt(occs, |occs|)
    ensures InOrder(occs + [t]) && SeenAt(occs + [t], |occs| + 1) == SeenAt(occs, |occs|)
    ensures Bounded(occs + [t], SeenAt(occs, |occs|))
  {
    forall k | 0 <= k <= |occs|
      ensures SeenAt(occs + [t], k) == SeenAt(occs, k)
    {
      SeenPrefix(occs, [t], k);
    }
  }

  lemma {:induction false} NewOccurrence(occs: seq<nat>, t: nat)
    requires InOrder(occs) && Bounded(occs, SeenAt(occs, |occs|)) && t == SeenAt(occs, |occs|)
    ensures InOrder(occs + [t]) && SeenAt(occs + [t], |occs| + 1) == t + 1
    ensures Bounded(occs + [t], t + 1)
  {
    forall k | 0 <= k <= |occs|
      ensures SeenAt(occs + [t], k) == SeenAt(occs, k)
    {
      SeenPrefix(occs, [t], k);
    }
  }

  ghost predicate Ready(occs: seq<nat>, next: nat) {
    InOrder(occs) && SeenAt(occs, |occs|) == next && Bounded(occs, next)
  }

  lemma {:induction false} ReadsInOrder(occs: seq<nat>, live: set<nat>, ns: seq<Name>, next: nat)
    requires Ready(occs, next) && Below(live, next) && Consume(live, ns).Some?
    ensures Ready(occs + TempsIn(ns), next) && Below(Consume(live, ns).value, next)
    decreases |ns|
  {
    if ns == [] {
      assert occs + [] == occs;
    } else if ns[0].Tmp? {
      OldOccurrence(occs, ns[0].k);
      ReadsInOrder(occs + [ns[0].k], live - {ns[0].k}, ns[1..], next);
      Assoc(occs, [ns[0].k], TempsIn(ns[1..]));
    } else {
      ReadsInOrder(occs, live, ns[1..], next);
      assert TempsIn(ns) == TempsIn(ns[1..]);
    }
  }

  lemma {:induction false} TempsReadWritten(i: Instr)
    requires !(i.ILoad? && i.var1.Tmp?)
    ensures Temps(i) == TempsIn(Reads(i)) + (match Writes(i) case Some(Tmp(k)) => [k] case _ => [])
  {
    var w: seq<Name> := if Writes(i).Some? then [Writes(i).value] else [];
    assert i.ILoad? || Cells(i) == Reads(i) + w;
    assert w != [] ==> w[1..] == [];
    assert i.ILoad? ==> Cells(i)[1..] == [];
    TempsInAppend(Reads(i), w);
  }

  lemma {:induction false} TempsInAppend(a: seq<Name>, b: seq<Name>)
    ensures TempsIn(a + b) == TempsIn(a) + TempsIn(b)
    decreases |a|
  {
    if a == [] {
      assert a + b == b;
      assert [] + TempsIn(b) == TempsIn(b);
    } else {
      TempsInAppend(a[1..], b);
      TempsInFirst(a + b);
      TempsInFirst(a);
      assert (a + b)[1..] == a[1..] + b && (a + b)[0] == a[0];
      hide TempsIn;
      var t: seq<nat> := if a[0].Tmp? then [a[0].k] else [];
      assert t + (TempsIn(a[1..]) + TempsIn(b)) == (t + TempsIn(a[1..])) + TempsIn(b);
    }
  }

  lemma {:induction false} TempsInFirst(a: seq<Name>)
    requires a != []
    ensures TempsIn(a) == (if a[0].Tmp? then [a[0].k] else []) + TempsIn(a[1..])
  {
  }

  lemma {:induction false} StepInOrder(occs: seq<nat>, i: Instr, s: Flow)
    requires Ready(occs, s.next) && Below(s.live, s.next) && FlowStep(i, s).Some?
    ensures Ready(occs + Temps(i), FlowStep(i, s).value.next)
    ensures Below(FlowStep(i, s).value.live, FlowStep(i, s).value.next)
  {
    hide Temps, TempsIn, InOrder, Bounded, SeenAt;
    TempsReadWritten(i);
    ReadsInOrder(occs, s.live, Reads(i), s.next);
    var mid := occs + TempsIn(Reads(i));
    match Writes(i) {
      case Some(Tmp(k)) =>
        Assoc(occs, TempsIn(Reads(i)), [k]);
        NewOccurrence(mid, k);
      case _ =>
        assert occs + (TempsIn(Reads(i)) + []) == mid;
    }
  }

  // ----- renamed code -----

  function RenameName(n: Name, r: seq<nat>): Name {
    if n.Tmp? && n.k < |r| then Tmp(r[n.k]) else n
  }

  function RenameInstr(i: Instr, r: seq<nat>): Instr {
    match i
    case ILoadVal(v, d) => ILoadVal(v, RenameName(d, r))
    case ILoad(a) => ILoad(RenameName(a, r))
    case IStore(src, d) => IStore(if src.Loc? then Loc(RenameName(src.n, r)) else src, RenameName(d, r))
    case IBin(op, a, b, d) => IBin(op, RenameName(a, r), RenameName(b, r), RenameName(d, r))
    case IShr(a, k, d) => IShr(RenameName(a, r), k, RenameName(d, r))
    case IUn(op, a, d) => IUn(op, RenameName(a, r), RenameName(d, r))
    case IRet(val) => IRet(if val.None? then None else Some(RenameName(val.value, r)))
    case IJmpf(a, l) => IJmpf(RenameName(a, r), l)
    case IParam(a) => IParam(RenameName(a, r))
    case ICall(f, d) => ICall(f, RenameName(d, r))
    case _ => i
  }

  function RenameCode(code: Code, r: seq<nat>): (c: Code)
    ensures |c| == |code| && forall i :: 0 <= i < |code| ==> c[i] == RenameInstr(code[i], r)
  {
    seq(|code|, i requires 0 <= i < |code| => RenameInstr(code[i], r))
  }

  /** The code after the pass. */
  function Reused(code: Code): Code
    requires Disciplined(code)
  {
    FlowInOrder(code);
    RenameCode(code, FinalCells(Occurrences(code), FlowRun(code, START).value.next))
  }

  /** What the optimizer finds at the k-th occurrence: the entry is locked, or it is the temporary's own
      and this is its first occurrence. */
  lemma {:induction false} VisitFacts(occs: seq<nat>, n: nat, k: nat, s: Slots)
    requires Bounded(occs, n) && InOrder(occs) && k < |occs| && Inv(occs, n, k, s)
    ensures var name := s.cell[occs[k]];
            !s.locked[name] ==> name == occs[k] == SeenAt(occs, k)
    ensures SeenAt(occs, k + 1) == if occs[k] == SeenAt(occs, k) then SeenAt(occs, k) + 1 else SeenAt(occs, k)
    ensures s.locked[s.cell[occs[k]]] ==> occs[k] < SeenAt(occs, k)
  {
    assert CountFrom(occs, s.cell, k, s.cell[occs[k]]) > 0;
  }

  // ----- the pass itself -----

  class TempList {
    const temp: seq<nat>
    const count: array<int>
    const locked: array<bool>
    const lists: array<seq<nat>>
    const cells: array<nat>

    ghost const occs: seq<nat>

    ghost predicate Shape()
      reads this
    {
      && temp == Identity(|temp|)
      && count.Length == locked.Length == lists.Length == cells.Length == |temp|
      && count as object != cells
      && Ready(occs, |temp|)
    }

    ghost function Abs(): Slots
      reads this, count, locked, cells
    {
      Slots(count[..], locked[..], cells[..])
    }

    /** The entries not met yet still list the locations of their own temporary, and nothing else. */
    ghost predicate Pristine(k: nat)
      requires k <= |occs|
      reads this, lists
    {
      forall f :: SeenAt(occs, k) <= f < lists.Length ==> lists[f] != [] && forall x :: x in lists[f] ==> x == f
    }

    /** The state after k visits. */
    ghost predicate Done(k: nat)
      reads this, count, locked, lists, cells
    {
      Shape() && k <= |occs| && Abs() == Reuse(occs, |temp|, k) && Pristine(k)
    }

    constructor (uses: seq<Use>, ghost occs: seq<nat>)
      requires Ready(occs, |uses|) && uses == Tally(occs)
      ensures this.occs == occs && |temp| == |uses| && Done(0)
      ensures fresh(count) && fresh(locked) && fresh(lists) && fresh(cells)
    {
      var n := |uses|;
      this.occs := occs;
      temp := Identity(n);
      count := new int[n](i requires 0 <= i < n => uses[i].count);
      locked := new bool[n](i => false);
      lists := new seq<nat>[n](i requires 0 <= i < n => seq(uses[i].count, j => uses[i].temp));
      cells := new nat[n](i requires 0 <= i < n => i);
      new;
      TallyInOrder(occs, n);
      assert count[..] == Initial(occs, n).count;
      assert locked[..] == Initial(occs, n).locked;
      assert cells[..] == Initial(occs, n).cell;
      forall f | 0 <= f < n
        ensures lists[f] != [] && forall x :: x in lists[f] ==> x == f
      {
        var j := SeenOccurs(occs, |occs|, f);
        CountAtLeast(occs, Identity(n), 0, j);
      }
    }

    /** The first entry before name with no uses left. */
    method GetFree(name: nat) returns (r: Option<nat>)
      requires Shape() && name < |temp|
      ensures r == FreeBelow(count[..], name)
    {
      var i := 0;
      while i < |temp|
        invariant 0 <= i <= name
        invariant FreeFrom(count[..], 0, name) == FreeFrom(count[..], i, name)
      {
        if temp[i] == name {
          return None;
        }
        if count[i] == 0 {
          return Some(i);
        }
        i := i + 1;
      }
      r := None;
    }

    /** The entry called name. */
    method GetTemp(name: nat) returns (r: nat)
      requires Shape() && name < |temp|
      ensures r == name
    {
      r := 0;
      while temp[r] != name
        invariant 0 <= r <= name
        decreases name - r
      {
        r := r + 1;
      }
    }

    method SwapTemps(f: nat, a: nat)
      requires Shape() && f < |temp| && a < |temp| && f != a
      requires forall x :: x in lists[a] ==> x < cells.Length
      modifies count, locked, lists, cells
      ensures count[..] == old(count[..])[f := old(count[a]) - 1][a := 0]
      ensures locked[..] == old(locked[..])[f := true][a := false]
      ensures lists[..] == old(lists[..])[f := old(lists[a])][a := []]
      ensures forall c :: 0 <= c < cells.Length ==>
        cells[c] == if c in old(lists[a]) then f else old(cells[c])
    {
      var aux := lists[a];
      count[f] := count[a] - 1;
      locked[f] := true;
      locked[a] := false;
      count[a] := 0;
      var i := 0;
      while i < |aux|
        invariant 0 <= i <= |aux|
        invariant count[..] == old(count[..])[f := old(count[a]) - 1][a := 0]
        invariant locked[..] == old(locked[..])[f := true][a := false]
        invariant lists[..] == old(lists[..])
        invariant forall c :: 0 <= c < cells.Length ==>
          cells[c] == if c in aux[..i] then f else old(cells[c])
      {
        assert aux[i] in aux;
        cells[aux[i]] := temp[f];
        i := i + 1;
      }
      assert aux[..i] == aux;
      lists[f] := lists[a];
      lists[a] := [];
    }

    /** The next occurrence is of the temporary whose cell is c, and the cell holds name. */
    ghost predicate Meets(c: nat, name: nat, k: nat)
      reads this, count, locked, lists, cells
    {
      Done(k) && k < |occs| && occs[k] == c && c < |temp| && name < |temp| && cells[c] == name
    }

    ghost predicate FirstMet(c: nat, k: nat)
      reads this, lists
    {
      Shape() && k < |occs| && Pristine(k) && c < |temp| && c == SeenAt(occs, k) && SeenAt(occs, k + 1) == c + 1
    }

    /** The entry of c, met for the first time, hands its uses and its locations to entry f. */
    method SwapInto(c: nat, f: nat, ghost k: nat)
      requires FirstMet(c, k) && f < c
      modifies count, locked, lists, cells
      ensures Shape() && Pristine(k + 1)
      ensures Abs() == Slots(old(count[..])[f := old(count[c]) - 1][c := 0], old(locked[..])[f := true][c := false],
                             old(cells[..])[c := f])
    {
      hide SeenAt, Ready, Identity;
      assert lists[c][0] in lists[c];
      SwapTemps(f, c);
      assert cells[..] == old(cells[..])[c := f];
    }

    method UseUp(a: nat, ghost k: nat)
      requires Shape() && k < |occs| && Pristine(k) && a < |temp| && SeenAt(occs, k) <= SeenAt(occs, k + 1)
      modifies count, locked
      ensures Shape() && Pristine(k + 1)
      ensures Abs() == Slots(old(count[..])[a := old(count[a]) - 1], old(locked[..])[a := true], cells[..])
    {
      hide SeenAt, Ready, Identity;
      count[a] := count[a] - 1;
      locked[a] := true;
    }

    /** A temporary met for the first time takes over a free name. */
    method TakeFree(c: nat, name: nat, f: nat, ghost k: nat)
      requires Meets(c, name, k) && !locked[name] && FreeBelow(count[..], name) == Some(f)
      modifies count, locked, lists, cells
      ensures Done(k + 1)
    {
      VisitFree(occs, |temp|, k, c, name, f);
      hide SeenAt, Reuse, Ready, FreeBelow, Identity, Pristine;
      SwapInto(c, f, k);
    }

    /** Any other occurrence uses up one count of its entry. */
    method CountUse(c: nat, name: nat, ghost k: nat)
      requires Meets(c, name, k) && (locked[name] || FreeBelow(count[..], name).None?)
      modifies count, locked
      ensures Done(k + 1)
    {
      hide SeenAt, Reuse, FreeBelow, Identity, Pristine, InOrder, Bounded;
      VisitUsed(occs, |temp|, k, c, name);
      UseUp(name, k);
    }

    /** One occurrence of the temporary whose cell is c. */
    method CheckOptimize(c: nat, ghost k: nat)
      requires Done(k) && k < |occs| && occs[k] == c
      modifies count, locked, lists, cells
      ensures Done(k + 1)
    {
      NextVisit(occs, |temp|, k);
      hide SeenAt, FreeBelow, Reuse, Identity, InOrder, Bounded, FreeFrom, Pristine;
      var name := cells[c];
      var free := GetFree(name);
      var actual := GetTemp(name);
      if free.Some? && !locked[actual] {
        TakeFree(c, actual, free.value, k);
      } else {
        CountUse(c, actual, k);
      }
    }

    /** The operands of one instruction, in order. */
    method VisitCells(ns: seq<Name>, ghost k: nat)
      requires Done(k) && k + |TempsIn(ns)| <= |occs| && occs[k..k + |TempsIn(ns)|] == TempsIn(ns)
      modifies count, locked, lists, cells
      ensures Done(k + |TempsIn(ns)|)
    {
      hide Done;
      var i := 0;
      ghost var j := k;
      while i < |ns|
        invariant 0 <= i <= |ns| && k <= j && Done(j)
        invariant j + |TempsIn(ns[i..])| == k + |TempsIn(ns)|
        invariant occs[j..j + |TempsIn(ns[i..])|] == TempsIn(ns[i..])
      {
        ghost var rest := ns[i..];
        assert rest[1..] == ns[i + 1..] && rest[0] == ns[i];
        if ns[i].Tmp? {
          OccurrenceHere(occs, j, ns[i].k, TempsIn(rest[1..]));
          CheckOptimize(ns[i].k, j);
          j := j + 1;
        }
        i := i + 1;
      }
    }

    /** The whole pass leaves in each cell the final name of its temporary. */
    method OptimizeMemory(code: Code)
      requires Done(0) && occs == Occurrences(code)
      modifies count, locked, lists, cells
      ensures cells[..] == FinalCells(occs, |temp|)
    {
      hide Done, Occurrences, FinalCells;
      OccurrencesEnds(code);
      var i := 0;
      while i < |code|
        invariant 0 <= i <= |code|
        invariant Done(|Occurrences(code[..i])|)
      {
        OccurrencesSplit(code, i);
        VisitCells(Cells(code[i]), |Occurrences(code[..i])|);
        i := i + 1;
      }
      AllVisited();
    }

    lemma {:induction false} AllVisited()
      requires Done(|occs|)
      ensures cells[..] == FinalCells(occs, |temp|)
    {
      hide Reuse;
    }
  }

  lemma {:induction false} OccurrencesEnds(code: Code)
    ensures Occurrences(code[..0]) == [] && code[..|code|] == code
  {
  }

  lemma {:induction false} ReuseOneMore(occs: seq<nat>, n: nat, k: nat)
    requires Bounded(occs, n) && k < |occs|
    ensures Reuse(occs, n, k + 1) == Visit(Reuse(occs, n, k), occs[k])
  {
    hide Visit;
  }

  /** The next state of the pass, case by case. */
  lemma {:induction false} NextVisit(occs: seq<nat>, n: nat, k: nat)
    requires Ready(occs, n) && k < |occs|
    ensures var s, c := Reuse(occs, n, k), occs[k];
            var name := s.cell[c];
            && |s.count| == |s.locked| == |s.cell| == n && c < n && name < n
            && SeenAt(occs, k) <= SeenAt(occs, k + 1)
            && (!s.locked[name] ==> name == c == SeenAt(occs, k) && SeenAt(occs, k + 1) == c + 1)
            && Reuse(occs, n, k + 1) ==
               (if FreeBelow(s.count, name).Some? && !s.locked[name] then
                  var f := FreeBelow(s.count, name).value;
                  Slots(s.count[f := s.count[name] - 1][name := 0], s.locked[f := true][name := false], s.cell[c := f])
                else Slots(s.count[name := s.count[name] - 1], s.locked[name := true], s.cell))
  {
    hide Inv, FreeBelow, CountFrom;
    ReuseOneMore(occs, n, k);
    ReuseInv(occs, n, k);
    VisitFacts(occs, n, k, Reuse(occs, n, k));
    hide Reuse;
  }

  /** The visit that takes over the free name f. */
  lemma {:induction false} VisitFree(occs: seq<nat>, n: nat, k: nat, c: nat, name: nat, f: nat)
    requires Ready(occs, n) && k < |occs| && c == occs[k] && Sized(Reuse(occs, n, k), n) && c < n
    requires name == Reuse(occs, n, k).cell[c] && !Reuse(occs, n, k).locked[name]
    requires FreeBelow(Reuse(occs, n, k).count, name) == Some(f)
    ensures name == c == SeenAt(occs, k) && SeenAt(occs, k + 1) == c + 1
    ensures var s := Reuse(occs, n, k);
            Reuse(occs, n, k + 1)
            == Slots(s.count[f := s.count[name] - 1][name := 0], s.locked[f := true][name := false], s.cell[c := f])
  {
    hide Reuse, FreeBelow, SeenAt, InOrder;
    NextVisit(occs, n, k);
  }

  /** The visit that uses up a count of name. */
  lemma {:induction false} VisitUsed(occs: seq<nat>, n: nat, k: nat, c: nat, name: nat)
    requires Ready(occs, n) && k < |occs| && c == occs[k] && Sized(Reuse(occs, n, k), n) && c < n
    requires name == Reuse(occs, n, k).cell[c]
    requires Reuse(occs, n, k).locked[name] || FreeBelow(Reuse(occs, n, k).count, name).None?
    ensures SeenAt(occs, k) <= SeenAt(occs, k + 1)
    ensures var s := Reuse(occs, n, k);
            Reuse(occs, n, k + 1) == Slots(s.count[name := s.count[name] - 1], s.locked[name := true], s.cell)
  {
    hide Reuse, FreeBelow, SeenAt, InOrder;
    NextVisit(occs, n, k);
  }

  lemma {:induction false} OccurrenceHere(occs: seq<nat>, j: nat, t: nat, rest: seq<nat>)
    requires j + 1 + |rest| <= |occs| && occs[j..j + 1 + |rest|] == [t] + rest
    ensures occs[j] == t && occs[j + 1..j + 1 + |rest|] == rest
  {
    assert occs[j] == occs[j..j + 1 + |rest|][0];
    assert occs[j + 1..j + 1 + |rest|] == occs[j..j + 1 + |rest|][1..];
  }

  lemma {:induction false} OccurrencesSplit(code: Code, i: nat)
    requires i < |code|
    ensures var k := |Occurrences(code[..i])|;
            && |Occurrences(code[..i + 1])| == k + |TempsIn(Cells(code[i]))|
            && k + |TempsIn(Cells(code[i]))| <= |Occurrences(code)|
            && Occurrences(code)[k..k + |TempsIn(Cells(code[i]))|] == TempsIn(Cells(code[i]))
  {
    hide Occurrences, TempsIn, Cells;
    assert code[..i + 1] == code[..i] + [code[i]];
    OccurrencesSnoc(code[..i], code[i]);
    assert code == code[..i + 1] + code[i + 1..];
    OccurrencesAppend(code[..i + 1], code[i + 1..]);
  }

  lemma {:induction false} CountAtLeast(occs: seq<nat>, cell: seq<nat>, k: nat, j: nat)
    requires k <= j < |occs| && Bounded(occs, |cell|)
    ensures CountFrom(occs, cell, k, cell[occs[j]]) > 0
    decreases j - k
  {
    if k < j {
      CountAtLeast(occs, cell, k + 1, j);
    }
  }
}
