/** The optimizer's reuse of temporaries: one pass over the occurrences, renaming in place. */
module TempReuse {
  import opened Words

  // ----- occurrences in first-appearance order -----

  /** How many different temporaries occur among the first k occurrences, when new ones come in order. */
  function SeenAt(occs: seq<nat>, k: nat): (r: nat)
    requires k <= |occs|
    ensures r <= k
  {
    if k == 0 then 0
    else
      var s := SeenAt(occs, k - 1);
      if occs[k - 1] == s then s + 1 else s
  }

  /** Every occurrence is of a temporary seen before, or of the next new one. */
  ghost predicate InOrder(occs: seq<nat>) {
    forall k :: 0 <= k < |occs| ==> occs[k] <= SeenAt(occs, k)
  }

  lemma {:induction false} SeenGrows(occs: seq<nat>, j: nat, k: nat)
    requires j <= k <= |occs|
    ensures SeenAt(occs, j) <= SeenAt(occs, k)
    decreases k
  {
    if j < k {
      SeenGrows(occs, j, k - 1);
    }
  }

  lemma {:induction false} SeenPrefix(a: seq<nat>, b: seq<nat>, k: nat)
    requires k <= |a|
    ensures SeenAt(a + b, k) == SeenAt(a, k)
    decreases k
  {
    if k > 0 {
      SeenPrefix(a, b, k - 1);
    }
  }

  lemma {:induction false} OccurrenceSeen(occs: seq<nat>, j: nat, k: nat)
    requires InOrder(occs) && j < k <= |occs|
    ensures occs[j] < SeenAt(occs, k)
  {
    SeenGrows(occs, j + 1, k);
  }

  lemma {:induction false} SeenOccurs(occs: seq<nat>, k: nat, t: nat) returns (j: nat)
    requires k <= |occs| && t < SeenAt(occs, k)
    ensures j < k && occs[j] == t
    decreases k
  {
    if occs[k - 1] == SeenAt(occs, k - 1) == t {
      j := k - 1;
    } else {
      j := SeenOccurs(occs, k - 1, t);
    }
  }

  // ----- the pass as a function -----

  /** Per entry: remaining uses and the lock; per original temporary: the name its cell holds. */
  datatype Slots = Slots(count: seq<int>, locked: seq<bool>, cell: seq<nat>)

  ghost predicate Sized(s: Slots, n: nat) {
    |s.count| == |s.locked| == |s.cell| == n && forall t :: 0 <= t < n ==> s.cell[t] < n
  }

  /** The lowest entry before name that has no uses left. */
  function FreeBelow(count: seq<int>, name: nat): (r: Option<nat>)
    requires name <= |count|
    ensures r.Some? ==> r.value < name && count[r.value] == 0 && forall g :: 0 <= g < r.value ==> count[g] != 0
    ensures r.None? ==> forall g :: 0 <= g < name ==> count[g] != 0
  {
    FreeFrom(count, 0, name)
  }

  function FreeFrom(count: seq<int>, i: nat, name: nat): (r: Option<nat>)
    requires i <= name <= |count|
    ensures r.Some? ==> i <= r.value < name && count[r.value] == 0 && forall g :: i <= g < r.value ==> count[g] != 0
    ensures r.None? ==> forall g :: i <= g < name ==> count[g] != 0
    decreases name - i
  {
    if i == name then None
    else if count[i] == 0 then Some(i)
    else FreeFrom(count, i + 1, name)
  }

  /** One occurrence of the original temporary t. */
  function Visit(s: Slots, t: nat): (r: Slots)
    requires Sized(s, |s.cell|) && t < |s.cell|
    ensures Sized(r, |s.cell|)
  {
    var name := s.cell[t];
    var free := FreeBelow(s.count, name);
    if free.Some? && !s.locked[name] then
      var f := free.value;
      Slots(s.count[f := s.count[name] - 1][name := 0], s.locked[f := true][name := false], s.cell[t := f])
    else
      Slots(s.count[name := s.count[name] - 1], s.locked[name := true], s.cell)
  }

  function Identity(n: nat): (s: seq<nat>)
    ensures |s| == n && forall i :: 0 <= i < n ==> s[i] == i
  {
    seq(n, i => i)
  }

  /** Occurrences from position k on whose cell holds the name f. */
  function CountFrom(occs: seq<nat>, cell: seq<nat>, k: nat, f: nat): nat
    requires k <= |occs| && forall j :: 0 <= j < |occs| ==> occs[j] < |cell|
    decreases |occs| - k
  {
    if k == |occs| then 0 else (if cell[occs[k]] == f then 1 else 0) + CountFrom(occs, cell, k + 1, f)
  }

  ghost predicate Bounded(occs: seq<nat>, n: nat) {
    forall j :: 0 <= j < |occs| ==> occs[j] < n
  }

  function Initial(occs: seq<nat>, n: nat): (s: Slots)
    requires Bounded(occs, n)
    ensures Sized(s, n)
  {
    Slots(seq(n, i requires 0 <= i < n => CountFrom(occs, Identity(n), 0, i)), seq(n, i => false), Identity(n))
  }

  /** The state after the first k occurrences. */
  function Reuse(occs: seq<nat>, n: nat, k: nat): (s: Slots)
    requires Bounded(occs, n) && k <= |occs|
    ensures Sized(s, n)
    decreases k
  {
    if k == 0 then Initial(occs, n) else Visit(Reuse(occs, n, k - 1), occs[k - 1])
  }

  /** The final name of each temporary. */
  function FinalCells(occs: seq<nat>, n: nat): (r: seq<nat>)
    requires Bounded(occs, n)
    ensures |r| == n && forall t :: 0 <= t < n ==> r[t] < n
  {
    Reuse(occs, n, |occs|).cell
  }

  // ----- what holds between two visits -----

  /** u occurs between two occurrences of t. */
  ghost predicate Inside(occs: seq<nat>, t: nat, u: nat) {
    exists i, j, l :: 0 <= i < j < l < |occs| && occs[i] == t && occs[j] == u && occs[l] == t
  }

  /** Neither temporary occurs while the other is in use. */
  ghost predicate Apart(occs: seq<nat>, t: nat, u: nat) {
    !Inside(occs, t, u) && !Inside(occs, u, t)
  }

  ghost predicate SharedApart(occs: seq<nat>, cell: seq<nat>, a: nat)
    requires a <= |cell|
  {
    forall t, u :: 0 <= t < a && 0 <= u < a && t != u && cell[t] == cell[u] ==> Apart(occs, t, u)
  }

  /** The counts are the uses that remain of each name, an unlocked entry that is in use has not been
      met, and only temporaries met before have been renamed, downward. */
  ghost predicate Inv(occs: seq<nat>, n: nat, k: nat, s: Slots)
    requires Bounded(occs, n) && k <= |occs|
  {
    && Sized(s, n)
    && SeenAt(occs, k) <= n
    && (forall t :: 0 <= t < SeenAt(occs, k) ==> s.cell[t] <= t)
    && (forall t :: SeenAt(occs, k) <= t < n ==> s.cell[t] == t && !s.locked[t])
    && (forall f :: 0 <= f < n ==> s.count[f] == CountFrom(occs, s.cell, k, f))
    && (forall f :: 0 <= f < SeenAt(occs, k) && s.count[f] > 0 ==> s.locked[f])
    && SharedApart(occs, s.cell, SeenAt(occs, k))
  }

  lemma {:induction false} CountPositive(occs: seq<nat>, cell: seq<nat>, k: nat, f: nat) returns (j: nat)
    requires k <= |occs| && Bounded(occs, |cell|)
    ensures CountFrom(occs, cell, k, f) > 0 ==> k <= j < |occs| && cell[occs[j]] == f
    ensures CountFrom(occs, cell, k, f) == 0 ==> forall i :: k <= i < |occs| ==> cell[occs[i]] != f
    decreases |occs| - k
  {
    j := k;
    if k < |occs| && cell[occs[k]] != f {
      j := CountPositive(occs, cell, k + 1, f);
    } else if k < |occs| {
      var _ := CountPositive(occs, cell, k + 1, f);
    }
  }

  /** Renaming t from its own name to an unused f moves t's remaining uses. */
  lemma {:induction false} CountMoved(occs: seq<nat>, cell: seq<nat>, k: nat, t: nat, f: nat, g: nat)
    requires k <= |occs| && Bounded(occs, |cell|) && t < |cell| && cell[t] == t && f != t
    requires forall u :: 0 <= u < |cell| && u != t ==> cell[u] != t
    requires forall i :: k <= i < |occs| ==> cell[occs[i]] != f
    ensures CountFrom(occs, cell[t := f], k, g) ==
            if g == f then CountFrom(occs, cell, k, t) else if g == t then 0 else CountFrom(occs, cell, k, g)
    decreases |occs| - k
  {
    if k < |occs| {
      CountMoved(occs, cell, k + 1, t, f, g);
    }
  }

  lemma {:induction false} InitialInv(occs: seq<nat>, n: nat)
    requires Bounded(occs, n)
    ensures Inv(occs, n, 0, Initial(occs, n))
  {
  }

  /** A temporary met before: its entry is locked and has uses left, so it is only counted down. */
  lemma {:induction false} VisitSeen(occs: seq<nat>, n: nat, k: nat, s: Slots)
    requires Bounded(occs, n) && k < |occs| && Inv(occs, n, k, s) && occs[k] < SeenAt(occs, k)
    ensures Inv(occs, n, k + 1, Visit(s, occs[k])) && Visit(s, occs[k]).cell == s.cell
  {
    var name := s.cell[occs[k]];
    assert s.count[name] > 0 && s.locked[name];
    var r := Visit(s, occs[k]);
    forall f | 0 <= f < n
      ensures r.count[f] == CountFrom(occs, r.cell, k + 1, f)
    {
      assert CountFrom(occs, s.cell, k, f) == (if name == f then 1 else 0) + CountFrom(occs, s.cell, k + 1, f);
    }
  }

  /** A new temporary, no lower entry free: it keeps its own name. */
  lemma {:induction false} VisitNew(occs: seq<nat>, n: nat, k: nat, s: Slots)
    requires Bounded(occs, n) && k < |occs| && Inv(occs, n, k, s) && occs[k] == SeenAt(occs, k)
    requires FreeBelow(s.count, occs[k]).None?
    ensures Inv(occs, n, k + 1, Visit(s, occs[k])) && Visit(s, occs[k]).cell == s.cell
  {
    var t := occs[k];
    var r := Visit(s, t);
    forall f | 0 <= f < n
      ensures r.count[f] == CountFrom(occs, r.cell, k + 1, f)
    {
      assert CountFrom(occs, s.cell, k, f) == (if t == f then 1 else 0) + CountFrom(occs, s.cell, k + 1, f);
    }
  }

  lemma {:induction false} NewIsApart(occs: seq<nat>, k: nat, t: nat, u: nat)
    requires k <= |occs| && t != u
    requires forall i :: 0 <= i < k ==> occs[i] != t
    requires forall i :: k <= i < |occs| ==> occs[i] != u
    ensures Apart(occs, t, u)
  {
  }

  lemma {:induction false} NewTempUnseen(occs: seq<nat>, k: nat)
    requires InOrder(occs) && k < |occs| && occs[k] == SeenAt(occs, k)
    ensures forall i :: 0 <= i < k ==> occs[i] != occs[k]
  {
    forall i | 0 <= i < k
      ensures occs[i] != occs[k]
    {
      OccurrenceSeen(occs, i, k);
    }
  }

  lemma {:induction false} SwapCounts(occs: seq<nat>, n: nat, k: nat, s: Slots)
    requires Bounded(occs, n) && k < |occs| && Inv(occs, n, k, s) && occs[k] == SeenAt(occs, k)
    requires FreeBelow(s.count, occs[k]).Some?
    ensures forall g :: 0 <= g < n ==>
      Visit(s, occs[k]).count[g] == CountFrom(occs, Visit(s, occs[k]).cell, k + 1, g)
  {
    hide SharedApart, SeenAt;
    var t := occs[k];
    var f := FreeBelow(s.count, t).value;
    var r := Visit(s, t);
    var _ := CountPositive(occs, s.cell, k, f);
    forall g | 0 <= g < n
      ensures r.count[g] == CountFrom(occs, r.cell, k + 1, g)
    {
      assert CountFrom(occs, s.cell, k, g) == (if t == g then 1 else 0) + CountFrom(occs, s.cell, k + 1, g);
      CountMoved(occs, s.cell, k + 1, t, f, g);
    }
  }

  lemma {:induction false} SwapApart(occs: seq<nat>, n: nat, k: nat, s: Slots, f: nat)
    requires Bounded(occs, n) && InOrder(occs) && k < |occs| && Inv(occs, n, k, s) && occs[k] == SeenAt(occs, k)
    requires f < occs[k] && s.count[f] == 0
    ensures SharedApart(occs, s.cell[occs[k] := f], occs[k] + 1)
  {
    hide CountFrom;
    var t := occs[k];
    var _ := CountPositive(occs, s.cell, k, f);
    NewTempUnseen(occs, k);
    var cell := s.cell[t := f];
    forall a, b | 0 <= a < t + 1 && 0 <= b < t + 1 && a != b && cell[a] == cell[b]
      ensures Apart(occs, a, b)
    {
      hide Apart;
      if a == t {
        NewIsApart(occs, k, t, b);
      } else if b == t {
        NewIsApart(occs, k, t, a);
        ApartSymmetric(occs, t, a);
      }
    }
  }

  lemma {:induction false} ApartSymmetric(occs: seq<nat>, t: nat, u: nat)
    requires Apart(occs, t, u)
    ensures Apart(occs, u, t)
  {
  }

  /** A new temporary takes the lowest free entry. */
  lemma {:induction false} VisitSwap(occs: seq<nat>, n: nat, k: nat, s: Slots)
    requires Bounded(occs, n) && InOrder(occs) && k < |occs| && Inv(occs, n, k, s) && occs[k] == SeenAt(occs, k)
    requires FreeBelow(s.count, occs[k]).Some?
    ensures Inv(occs, n, k + 1, Visit(s, occs[k]))
  {
    hide Apart, CountFrom, FreeBelow;
    var t := occs[k];
    var f := FreeBelow(s.count, t).value;
    SwapCounts(occs, n, k, s);
    SwapApart(occs, n, k, s, f);
  }

  /** The invariant holds after every number of visits. */
  lemma {:induction false} ReuseInv(occs: seq<nat>, n: nat, k: nat)
    requires Bounded(occs, n) && InOrder(occs) && k <= |occs|
    ensures Inv(occs, n, k, Reuse(occs, n, k))
    decreases k
  {
    hide Inv, Visit;
    if k == 0 {
      InitialInv(occs, n);
    } else {
      ReuseInv(occs, n, k - 1);
      var s := Reuse(occs, n, k - 1);
      if occs[k - 1] < SeenAt(occs, k - 1) {
        VisitSeen(occs, n, k - 1, s);
      } else if FreeBelow(s.count, occs[k - 1]).None? {
        VisitNew(occs, n, k - 1, s);
      } else {
        VisitSwap(occs, n, k - 1, s);
      }
    }
  }

  /** Temporaries that end up sharing a name are never in use at the same time. */
  lemma {:induction false} ReuseIsSound(occs: seq<nat>, n: nat, t: nat, u: nat)
    requires Bounded(occs, n) && InOrder(occs) && SeenAt(occs, |occs|) == n
    requires t < n && u < n && t != u && FinalCells(occs, n)[t] == FinalCells(occs, n)[u]
    ensures Apart(occs, t, u)
  {
    ReuseInv(occs, n, |occs|);
  }
}
