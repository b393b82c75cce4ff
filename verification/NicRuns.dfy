/** The interface renumbering run again and again: what any number of crashed starts leave behind, and
    how many undisturbed starts put it right. */
module NicRuns {
  import opened NicOrder
  import opened Sets

  // ---------------------------------------------------------------- one run, by position

  /** The rows below zero. */
  function Below(xs: seq<int>): set<int> {
    set i | 0 <= i < |xs| && xs[i] < 0
  }

  /** The rows that phase one leaves waiting on an order below their position. */
  function WaitingRows(q: seq<int>): set<int> {
    set i | 0 <= i < |q| && 0 <= q[i] < i
  }

  /** The row whose slot it is that row h keeps or needs. */
  function SlotRow(xs: seq<int>, h: int): int {
    if 0 <= h < |xs| then TEMP_BASE - xs[h] else 0
  }

  /** Each waiting row i is kept from moving by a row h before it that has its slot from the start, and
      h by a row g between them. */
  lemma {:induction false} Keepers(xs: seq<int>, s: seq<nat>, i: int) returns (h: int, g: int)
    requires |xs| == |s| && Different(xs) && Ascending(xs, s)
    requires i in WaitingRows(OneAt(xs, true, |xs|))
    ensures Knot(xs, h, g, i)
  {
    OneTurn(xs, i);
    h := Rejector(xs, i);
    assert h < i;
    g := Rejector(xs, h);
  }

  ghost function HolderRows(xs: seq<int>): set<int> {
    set h | h in Below(xs) && SlotRow(xs, h) > h && SlotRow(xs, h) in WaitingRows(OneAt(xs, true, |xs|))
  }

  ghost function BlockerRows(xs: seq<int>): set<int> {
    set g | g in Below(xs) && SlotRow(xs, g) < g && SlotRow(xs, g) in HolderRows(xs)
  }

  lemma {:induction false} HoldersCover(xs: seq<int>, s: seq<nat>)
    requires |xs| == |s| && Different(xs) && Ascending(xs, s)
    ensures |WaitingRows(OneAt(xs, true, |xs|))| <= |HolderRows(xs)|
  {
    var waiting, holders := WaitingRows(OneAt(xs, true, |xs|)), HolderRows(xs);
    var slot := (h: int) => SlotRow(xs, h);
    forall i | i in waiting ensures exists h | h in holders :: slot(h) == i {
      var h, g := Keepers(xs, s, i);
      assert h in holders && slot(h) == i;
    }
    ImageBound(holders, waiting, slot);
  }

  lemma {:induction false} BlockersCover(xs: seq<int>, s: seq<nat>)
    requires |xs| == |s| && Different(xs) && Ascending(xs, s)
    ensures |HolderRows(xs)| <= |BlockerRows(xs)|
  {
    var holders, blockers := HolderRows(xs), BlockerRows(xs);
    var slot := (h: int) => SlotRow(xs, h);
    forall h | h in holders ensures exists g | g in blockers :: slot(g) == h {
      var h', g := Keepers(xs, s, SlotRow(xs, h));
      SameOrderSameRow(xs, h, h');
      assert g in blockers && slot(g) == h;
    }
    ImageBound(blockers, holders, slot);
  }

  /** At least twice as many rows start below zero as phase one leaves waiting. */
  lemma {:induction false} WaitingIsHalf(xs: seq<int>, s: seq<nat>)
    requires |xs| == |s| && Different(xs) && Ascending(xs, s)
    ensures 2 * |WaitingRows(OneAt(xs, true, |xs|))| <= |Below(xs)|
  {
    HoldersCover(xs, s);
    BlockersCover(xs, s);
    Apart(HolderRows(xs), BlockerRows(xs), Below(xs));
  }

  lemma {:induction false} Apart(a: set<int>, b: set<int>, c: set<int>)
    requires a !! b && a <= c && b <= c
    ensures |a| + |b| <= |c|
  {
    SubsetBound(a + b, c);
  }

  lemma {:induction false} SameOrderSameRow(xs: seq<int>, a: int, b: int)
    requires Different(xs) && 0 <= a < |xs| && 0 <= b < |xs| && xs[a] == xs[b]
    ensures a == b
  {
  }

  ghost predicate UpwardsFromZero(q: seq<int>) {
    Different(q) && forall a, b | 0 <= a < b < |q| && q[a] >= 0 && q[b] >= 0 :: q[a] < q[b]
  }

  /** In phase two every row that has an order at or above its position gets its place. */
  lemma {:induction false} HighRowsArrive(q: seq<int>, j: nat, k: nat)
    requires UpwardsFromZero(q) && j < k <= |q| && q[j] >= j
    ensures TwoAt(q, true, k)[j] == j
    decreases k, j
  {
    if j < k - 1 {
      HighRowsArrive(q, j, k - 1);
    } else {
      TwoKeeps(q, j);
      var r := TwoAt(q, true, j);
      forall m | 0 <= m < |r| && m != j ensures r[m] != j {
        if r[m] == j && m < j {
          HighRowsArrive(q, m, j);
        }
      }
    }
  }

  /** A row that ends below zero was rejected because of a waiting row with its number. */
  lemma {:induction false} LeftBehind(q: seq<int>, v: nat) returns (i: nat)
    requires UpwardsFromZero(q) && v < |q| && TwoAt(q, true, |q|)[v] < 0
    ensures i < |q| && i in WaitingRows(q) && q[i] == v
  {
    TwoSettled(q, v + 1, |q|);
    var r := TwoAt(q, true, v);
    TwoKeeps(q, v);
    i :| 0 <= i < |r| && i != v && r[i] == v;
    if i < v && q[i] >= i {
      HighRowsArrive(q, i, v);
    }
  }

  lemma {:induction false} TwoSettled(q: seq<int>, k: nat, m: nat)
    requires k <= m <= |q|
    ensures forall i | 0 <= i < k :: TwoAt(q, true, m)[i] == TwoAt(q, true, k)[i]
  {
    if k < m {
      TwoSettled(q, k, m - 1);
    }
  }

  lemma {:induction false} BelowIsWaiting(q: seq<int>)
    requires UpwardsFromZero(q)
    ensures |Below(TwoAt(q, true, |q|))| <= |WaitingRows(q)|
  {
    var order := (i: int) => if 0 <= i < |q| then q[i] else 0;
    forall v | v in Below(TwoAt(q, true, |q|)) ensures exists i | i in WaitingRows(q) :: order(i) == v {
      var i := LeftBehind(q, v);
    }
    ImageBound(WaitingRows(q), Below(TwoAt(q, true, |q|)), order);
  }

  /** A run halves the number of rows below zero, at least. */
  lemma {:induction false} RunHalves(xs: seq<int>, s: seq<nat>)
    requires |xs| == |s| && Different(xs) && Ascending(xs, s)
    ensures 2 * |Below(StepsAt(xs, true, 2 * |xs|))| <= |Below(xs)|
  {
    var q := OneAt(xs, true, |xs|);
    OneKeeps(xs, |xs|);
    UnmovedAscend(xs, s, q);
    BelowIsWaiting(q);
    WaitingIsHalf(xs, s);
  }

  // ---------------------------------------------------------------- the same for a VM

  function Negatives(o: Orders): set<nat> {
    set id | id in o && o[id] < 0
  }

  lemma {:induction false} NegativesAlong(o: Orders, s: seq<nat>)
    requires Covers(s, o)
    ensures |Below(Along(o, s))| == |Negatives(o)|
  {
    var below, negatives := Below(Along(o, s)), Negatives(o);
    var row := (i: int) => if 0 <= i < |s| then s[i] else 0;
    forall id | id in negatives ensures exists i | i in below :: row(i) == id {
      var i := PlaceOf(s, id);
      assert i in below && row(i) == id;
    }
    ImageBound(below, negatives, row);
    var place := (id: nat) => if id in s then PlaceOf(s, id) else 0;
    forall i | i in below ensures exists id | id in negatives :: place(id) == i {
      assert s[i] in negatives && place(s[i]) == i;
    }
    ImageBound(negatives, below, place);
  }

  ghost function PlaceOf(s: seq<nat>, id: nat): (i: int)
    requires id in s
    ensures 0 <= i < |s| && s[i] == id
  {
    var i :| 0 <= i < |s| && s[i] == id;
    i
  }

  /** An undisturbed run under the index leaves at most half as many rows below zero. */
  lemma {:induction false} NormalizeHalves(o: Orders)
    requires Injective(o) && NeedsFix(o, Listing(o))
    ensures 2 * |Negatives(Normalize(o, true))| <= |Negatives(o)|
  {
    var s := Listing(o);
    ListingAscends(o);
    DifferentAlong(o, s);
    AfterAlong(o, true, 2 * |s|);
    RunHalves(Along(o, s), s);
    NegativesAlong(o, s);
    NegativesAlong(Normalize(o, true), s);
  }

  // ---------------------------------------------------------------- any number of runs

  lemma {:induction false} SetKeepsInjective(o: Orders, id: nat, x: int)
    requires Injective(o)
    ensures Injective(Set(o, true, id, x)) && Set(o, true, id, x).Keys == o.Keys
  {
  }

  lemma {:induction false} PhaseKeepsInjective(o: Orders, s: seq<nat>, temporary: bool, k: nat)
    requires Injective(o) && k <= |s|
    ensures Injective(Phase(o, true, s, temporary, k)) && Phase(o, true, s, temporary, k).Keys == o.Keys
  {
    if k > 0 {
      PhaseKeepsInjective(o, s, temporary, k - 1);
      SetKeepsInjective(Phase(o, true, s, temporary, k - 1), s[k - 1], Target(temporary, k - 1));
    }
  }

  lemma {:induction false} StepsKeepInjective(o: Orders, s: seq<nat>, k: nat)
    requires Injective(o)
    ensures Injective(Steps(o, true, s, k)) && Steps(o, true, s, k).Keys == o.Keys
  {
    if k <= |s| {
      PhaseKeepsInjective(o, s, true, k);
    } else {
      PhaseKeepsInjective(o, s, true, |s|);
      PhaseKeepsInjective(Phase(o, true, s, true, |s|), s, false, if k <= 2 * |s| then k - |s| else |s|);
    }
  }

  /** A start, stopped anywhere, keeps the promise of the index and the rows. */
  lemma {:induction false} AfterKeepsInjective(o: Orders, k: nat)
    requires Injective(o)
    ensures Injective(After(o, true, k)) && After(o, true, k).Keys == o.Keys
  {
    StepsKeepInjective(o, Listing(o), k);
  }

  /** Starts that die after the given numbers of writes, the last one first. */
  function Crashed(o: Orders, crashes: seq<nat>): Orders {
    if crashes == [] then o else After(Crashed(o, crashes[1..]), true, crashes[0])
  }

  function Starts(o: Orders, n: nat): Orders
    decreases n
  {
    if n == 0 then o else Starts(Normalize(o, true), n - 1)
  }

  function Power(n: nat): nat {
    if n == 0 then 1 else 2 * Power(n - 1)
  }

  lemma {:induction false} CrashedKeepsInjective(o: Orders, crashes: seq<nat>)
    requires Injective(o)
    ensures Injective(Crashed(o, crashes)) && Crashed(o, crashes).Keys == o.Keys
  {
    if crashes != [] {
      CrashedKeepsInjective(o, crashes[1..]);
      AfterKeepsInjective(Crashed(o, crashes[1..]), crashes[0]);
    }
  }

  lemma {:induction false} KnotNeedsTwo(xs: seq<int>)
    requires |Below(xs)| <= 1
    ensures !Knotted(xs)
  {
    forall h, g, i | 0 <= h < g < i < |xs| ensures !Knot(xs, h, g, i) {
      if Knot(xs, h, g, i) {
        SubsetBound({h, g}, Below(xs));
      }
    }
  }

  /** One row below zero is no obstacle. */
  lemma {:induction false} OneNegativeIsNumbered(o: Orders)
    requires Injective(o) && |Negatives(o)| <= 1
    ensures Numbered(Normalize(o, true))
  {
    if NeedsFix(o, Listing(o)) {
      ListingAscends(o);
      NegativesAlong(o, Listing(o));
      KnotNeedsTwo(Along(o, Listing(o)));
      NumberedIff(o);
    }
  }

  lemma {:induction false} NumberedStays(o: Orders, n: nat)
    requires Numbered(o)
    ensures Starts(o, n) == o
  {
    if n > 0 {
      NumberedStays(o, n - 1);
    }
  }

  /** n undisturbed starts number every VM with fewer than 2^n rows below zero. */
  lemma {:induction false} RunsNumber(o: Orders, n: nat)
    requires Injective(o) && n >= 1 && |Negatives(o)| < Power(n)
    ensures Numbered(Starts(o, n))
    decreases n
  {
    if |Negatives(o)| <= 1 {
      OneNegativeIsNumbered(o);
      NumberedStays(Normalize(o, true), n - 1);
    } else if !NeedsFix(o, Listing(o)) {
      NumberedStays(o, n);
    } else {
      StartKeepsInjective(o);
      NormalizeHalves(o);
      RunsNumber(Normalize(o, true), n - 1);
    }
  }

  lemma {:induction false} StartKeepsInjective(o: Orders)
    requires Injective(o)
    ensures Injective(Normalize(o, true))
  {
    AfterKeepsInjective(o, 2 * |Listing(o)|);
  }

  /** Whatever the orders were, and however often and wherever starts have died: n undisturbed starts
      number every VM with fewer than 2^n interfaces. */
  lemma {:induction false} AnyCrashesThenRuns(o: Orders, crashes: seq<nat>, n: nat)
    requires Injective(o) && n >= 1 && |o| < Power(n)
    ensures Numbered(Starts(Crashed(o, crashes), n))
  {
    var c := Crashed(o, crashes);
    CrashedKeepsInjective(o, crashes);
    FewNegatives(c);
    assert |c| == |c.Keys| == |o.Keys| == |o|;
    RunsNumber(c, n);
  }

  lemma {:induction false} FewNegatives(o: Orders)
    ensures |Negatives(o)| <= |o|
  {
    assert Negatives(o) <= o.Keys;
    assert o.Keys == Negatives(o) + (o.Keys - Negatives(o));
    assert |o.Keys| == |o|;
  }

  // ---------------------------------------------------------------- without the index

  lemma {:induction false} StepsWithoutIndex(xs: seq<int>)
    ensures forall i | 0 <= i < |xs| :: StepsAt(xs, false, 2 * |xs|)[i] == i
  {
    TwoNumbers(OneAt(xs, false, |xs|), false, |xs|);
  }

  /** Without the index one start numbers any orders at all, in their own sequence. */
  lemma {:induction false} NumberedWithoutIndex(o: Orders)
    ensures Numbered(Normalize(o, false)) && Listing(Normalize(o, false)) == Listing(o)
  {
    if NeedsFix(o, Listing(o)) {
      AfterAlong(o, false, 2 * |Listing(o)|);
      StepsWithoutIndex(Along(o, Listing(o)));
      NumberedBy(Normalize(o, false), Listing(o));
    }
  }
}
