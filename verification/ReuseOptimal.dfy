/** The reuse pass needs no more names than any renaming that keeps overlapping temporaries apart. */
module ReuseOptimal {
  import opened TempReuse

  /** t is in use at position k: it occurs at or before k, and at or after k. */
  ghost predicate Covers(occs: seq<nat>, k: nat, t: nat) {
    exists i, j :: 0 <= i <= k <= j < |occs| && occs[i] == t && occs[j] == t
  }

  ghost function LiveAt(occs: seq<nat>, k: nat): set<nat> {
    set t | t in occs && Covers(occs, k, t)
  }

  /** The largest number of temporaries in use at one position, among the first k. */
  ghost function PeakUpTo(occs: seq<nat>, k: nat): nat {
    if k == 0 then 0
    else
      var m := PeakUpTo(occs, k - 1);
      if |LiveAt(occs, k - 1)| > m then |LiveAt(occs, k - 1)| else m
  }

  ghost function Peak(occs: seq<nat>): nat {
    PeakUpTo(occs, |occs|)
  }

  lemma {:induction false} PeakBounds(occs: seq<nat>, k: nat, j: nat)
    requires j < k
    ensures |LiveAt(occs, j)| <= PeakUpTo(occs, k)
    decreases k
  {
    if j < k - 1 {
      PeakBounds(occs, k - 1, j);
    }
  }

  lemma {:induction false} PeakReached(occs: seq<nat>, k: nat) returns (j: nat)
    ensures PeakUpTo(occs, k) > 0 ==> j < k && |LiveAt(occs, j)| == PeakUpTo(occs, k)
    decreases k
  {
    j := 0;
    if k > 0 {
      j := k - 1;
      if PeakUpTo(occs, k) != |LiveAt(occs, k - 1)| {
        j := PeakReached(occs, k - 1);
      }
    }
  }

  /** A renaming under which no temporary is overwritten while it is in use. */
  ghost predicate Renaming(occs: seq<nat>, n: nat, r: seq<nat>) {
    |r| == n && forall t, u :: 0 <= t < n && 0 <= u < n && t != u && r[t] == r[u] ==> Apart(occs, t, u)
  }

  function NamesUsed(r: seq<nat>): set<nat> {
    set i | 0 <= i < |r| :: r[i]
  }

  function UpTo(m: nat): (r: set<nat>)
    ensures forall i: nat :: i in r <==> i < m
  {
    if m == 0 then {} else UpTo(m - 1) + {m - 1}
  }

  // ----- counting -----

  ghost predicate InjectiveOn(r: seq<nat>, s: set<nat>) {
    (forall t :: t in s ==> t < |r|) && forall t, u :: t in s && u in s && t != u ==> r[t] != r[u]
  }

  ghost function Image(r: seq<nat>, s: set<nat>): set<nat>
    requires forall t :: t in s ==> t < |r|
  {
    set t | t in s :: r[t]
  }

  lemma {:induction false} ImageSize(r: seq<nat>, s: set<nat>)
    requires InjectiveOn(r, s)
    ensures |Image(r, s)| == |s|
    decreases |s|
  {
    if s != {} {
      var t :| t in s;
      ImageSize(r, s - {t});
      assert Image(r, s) == Image(r, s - {t}) + {r[t]};
    }
  }

  lemma {:induction false} UpToSize(m: nat)
    ensures |UpTo(m)| == m
    decreases m
  {
    if m > 0 {
      UpToSize(m - 1);
    }
  }

  lemma {:induction false} SubsetSize<T>(a: set<T>, b: set<T>)
    requires a <= b
    ensures |a| <= |b|
    ensures |a| == |b| ==> a == b
    decreases |a|
  {
    if a == {} {
    } else {
      var x :| x in a;
      SubsetSize(a - {x}, b - {x});
      assert a == (a - {x}) + {x} && b == (b - {x}) + {x};
    }
  }

  // ----- every renaming needs the peak -----

  lemma {:induction false} LiveTogether(occs: seq<nat>, k: nat, t: nat, u: nat)
    requires t in LiveAt(occs, k) && u in LiveAt(occs, k) && t != u
    ensures !Apart(occs, t, u)
  {
    var i, j :| 0 <= i <= k <= j < |occs| && occs[i] == t && occs[j] == t;
    var p, q :| 0 <= p <= k <= q < |occs| && occs[p] == u && occs[q] == u;
    if i < p {
      assert i < p < j;
      assert Inside(occs, t, u);
    } else {
      assert p < i < q;
      assert Inside(occs, u, t);
    }
  }

  lemma {:induction false} LiveInjective(occs: seq<nat>, n: nat, r: seq<nat>, k: nat)
    requires Bounded(occs, n) && Renaming(occs, n, r)
    ensures InjectiveOn(r, LiveAt(occs, k))
  {
    forall t, u | t in LiveAt(occs, k) && u in LiveAt(occs, k) && t != u
      ensures r[t] != r[u]
    {
      LiveTogether(occs, k, t, u);
    }
  }

  lemma {:induction false} NeedsPeak(occs: seq<nat>, n: nat, r: seq<nat>)
    requires Bounded(occs, n) && Renaming(occs, n, r)
    ensures |NamesUsed(r)| >= Peak(occs)
  {
    if Peak(occs) > 0 {
      var k := PeakReached(occs, |occs|);
      LiveInjective(occs, n, r, k);
      ImageSize(r, LiveAt(occs, k));
      SubsetSize(Image(r, LiveAt(occs, k)), NamesUsed(r));
    }
  }

  // ----- the pass needs no more -----

  /** A name below the one given out is held by a temporary in use. */
  lemma {:induction false} BusyHolder(occs: seq<nat>, n: nat, k: nat, s: Slots, g: nat) returns (u: nat)
    requires Bounded(occs, n) && InOrder(occs) && k < |occs| && Inv(occs, n, k, s)
    requires g < SeenAt(occs, k) && s.count[g] != 0
    ensures u in LiveAt(occs, k) && u < SeenAt(occs, k) && s.cell[u] == g
  {
    var j := CountPositive(occs, s.cell, k, g);
    u := occs[j];
    var i := SeenOccurs(occs, k, u);
    assert Covers(occs, k, u);
  }

  lemma {:induction false} BusySet(occs: seq<nat>, n: nat, k: nat, s: Slots, f: nat) returns (us: set<nat>)
    requires Bounded(occs, n) && InOrder(occs) && k < |occs| && Inv(occs, n, k, s) && f <= SeenAt(occs, k)
    requires forall g :: 0 <= g < f ==> s.count[g] != 0
    ensures |us| == f && us <= LiveAt(occs, k)
    ensures forall u :: u in us ==> u < SeenAt(occs, k) && s.cell[u] < f
    decreases f
  {
    us := {};
    if f > 0 {
      us := BusySet(occs, n, k, s, f - 1);
      var u := BusyHolder(occs, n, k, s, f - 1);
      us := us + {u};
    }
  }

  /** The name a new temporary gets is below the number of temporaries in use at that moment. */
  lemma {:induction false} NewNameLow(occs: seq<nat>, n: nat, k: nat)
    requires Bounded(occs, n) && InOrder(occs) && k < |occs| && occs[k] == SeenAt(occs, k)
    ensures Reuse(occs, n, k + 1).cell[occs[k]] < |LiveAt(occs, k)|
  {
    hide Inv;
    ReuseInv(occs, n, k);
    var s, t := Reuse(occs, n, k), occs[k];
    OwnName(occs, n, k, s);
    var f := if FreeBelow(s.count, t).Some? then FreeBelow(s.count, t).value else t;
    var us := BusySet(occs, n, k, s, f);
    assert Covers(occs, k, t);
    SubsetSize(us + {t}, LiveAt(occs, k));
  }

  lemma {:induction false} OwnName(occs: seq<nat>, n: nat, k: nat, s: Slots)
    requires Bounded(occs, n) && k < |occs| && Inv(occs, n, k, s) && occs[k] == SeenAt(occs, k)
    ensures s.cell[occs[k]] == occs[k] && !s.locked[occs[k]]
  {
  }

  lemma {:induction false} VisitOthers(s: Slots, n: nat, t: nat, u: nat)
    requires Sized(s, n) && t < n && u < n && t != u
    ensures Visit(s, t).cell[u] == s.cell[u]
  {
  }

  lemma ReuseNext(occs: seq<nat>, n: nat, k: nat)
    requires Bounded(occs, n) && 0 < k <= |occs|
    ensures occs[k - 1] < n && Sized(Reuse(occs, n, k - 1), n)
    ensures |Reuse(occs, n, k - 1).cell| == n && Reuse(occs, n, k) == Visit(Reuse(occs, n, k - 1), occs[k - 1])
  {
    hide Visit, Initial;
  }

  /** Later visits do not rename a temporary again. */
  lemma {:induction false} RenamedOnce(occs: seq<nat>, n: nat, j: nat, k: nat, t: nat)
    requires Bounded(occs, n) && InOrder(occs) && j <= k <= |occs| && t < SeenAt(occs, j) && t < n
    ensures Reuse(occs, n, k).cell[t] == Reuse(occs, n, j).cell[t]
    decreases k
  {
    if j < k {
      ReuseNext(occs, n, k);
      hide Inv, Visit, InOrder, SeenAt, Reuse, Sized, Bounded;
      RenamedOnce(occs, n, j, k - 1, t);
      var s := Reuse(occs, n, k - 1);
      if occs[k - 1] == t {
        ReuseInv(occs, n, k - 1);
        SeenGrows(occs, j, k - 1);
        VisitSeen(occs, n, k - 1, s);
      } else {
        VisitOthers(s, n, occs[k - 1], t);
      }
    }
  }

  lemma {:induction false} FirstOccurrence(occs: seq<nat>, k: nat, t: nat) returns (j: nat)
    requires k <= |occs| && t < SeenAt(occs, k)
    ensures j < k && occs[j] == t == SeenAt(occs, j)
    decreases k
  {
    if occs[k - 1] == SeenAt(occs, k - 1) == t {
      j := k - 1;
    } else {
      j := FirstOccurrence(occs, k - 1, t);
    }
  }

  /** Each temporary ends with a name not above its own index and below the peak. */
  lemma {:induction false} FinalNameLow(occs: seq<nat>, n: nat, t: nat)
    requires Bounded(occs, n) && InOrder(occs) && SeenAt(occs, |occs|) == n && t < n
    ensures FinalCells(occs, n)[t] < Peak(occs) && FinalCells(occs, n)[t] <= t
  {
    hide Inv, Visit;
    var k := FirstOccurrence(occs, |occs|, t);
    NewNameLow(occs, n, k);
    RenamedOnce(occs, n, k + 1, |occs|, t);
    PeakBounds(occs, |occs|, k);
    NotAbove(occs, n, t);
  }

  lemma {:induction false} NotAbove(occs: seq<nat>, n: nat, t: nat)
    requires Bounded(occs, n) && InOrder(occs) && SeenAt(occs, |occs|) == n && t < n
    ensures FinalCells(occs, n)[t] <= t
  {
    ReuseInv(occs, n, |occs|);
  }

  lemma {:induction false} ReuseIsRenaming(occs: seq<nat>, n: nat)
    requires Bounded(occs, n) && InOrder(occs) && SeenAt(occs, |occs|) == n
    ensures Renaming(occs, n, FinalCells(occs, n))
  {
    hide FinalCells, Apart;
    forall t, u | 0 <= t < n && 0 <= u < n && t != u && FinalCells(occs, n)[t] == FinalCells(occs, n)[u]
      ensures Apart(occs, t, u)
    {
      ReuseIsSound(occs, n, t, u);
    }
  }

  /** The reuse pass is optimal: it uses exactly the names below the peak, and no renaming that keeps
      overlapping temporaries apart uses fewer names. */
  lemma {:induction false} ReuseIsOptimal(occs: seq<nat>, n: nat, other: seq<nat>)
    requires Bounded(occs, n) && InOrder(occs) && SeenAt(occs, |occs|) == n
    ensures Renaming(occs, n, FinalCells(occs, n))
    ensures NamesUsed(FinalCells(occs, n)) == UpTo(Peak(occs))
    ensures Renaming(occs, n, other) ==> |NamesUsed(other)| >= |NamesUsed(FinalCells(occs, n))|
  {
    hide FinalCells, Renaming, Peak;
    ReuseIsRenaming(occs, n);
    var r := FinalCells(occs, n);
    NeedsPeak(occs, n, r);
    forall t | 0 <= t < n
      ensures r[t] < Peak(occs)
    {
      FinalNameLow(occs, n, t);
    }
    UpToSize(Peak(occs));
    SubsetSize(NamesUsed(r), UpTo(Peak(occs)));
    if Renaming(occs, n, other) {
      NeedsPeak(occs, n, other);
    }
  }
}
