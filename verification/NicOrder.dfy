/** Renumbering the network interfaces of one VM in two phases under the unique index on
    (vm_name, interface_order), one row at a time, with a crash possible between any two writes. */
module NicOrder {

  const TEMP_BASE: int := -10000

  /** The bindings of one VM: row id to interface_order. */
  type Orders = map<nat, int>

  /** ORDER BY interface_order ASC, id ASC. */
  predicate Before(o: Orders, a: nat, b: nat)
    requires a in o && b in o
  {
    o[a] < o[b] || (o[a] == o[b] && a < b)
  }

  ghost predicate IsListing(s: seq<nat>, o: Orders) {
    && (forall id :: id in s <==> id in o)
    && (forall i, j | 0 <= i < j < |s| :: Before(o, s[i], s[j]))
  }

  lemma {:induction false} LeastExists(o: Orders, ids: set<nat>) returns (m: nat)
    requires ids != {} && ids <= o.Keys
    ensures m in ids && forall x | x in ids && x != m :: Before(o, m, x)
  {
    m :| m in ids;
    if ids != {m} {
      var rest := ids - {m};
      var r := LeastExists(o, rest);
      if Before(o, r, m) {
        m := r;
      } else {
        forall x | x in ids && x != m ensures Before(o, m, x) {
          if x != r { assert Before(o, r, x); }
        }
      }
    }
  }

  function ListFrom(o: Orders, ids: set<nat>): (s: seq<nat>)
    requires ids <= o.Keys
    ensures forall id :: id in s <==> id in ids
    ensures forall i, j | 0 <= i < j < |s| :: Before(o, s[i], s[j])
  {
    if ids == {} then []
    else
      assert exists m | m in ids :: forall x | x in ids && x != m :: Before(o, m, x) by {
        var m := LeastExists(o, ids);
      }
      var m :| m in ids && forall x | x in ids && x != m :: Before(o, m, x);
      [m] + ListFrom(o, ids - {m})
  }

  /** The rows as the query returns them. */
  function Listing(o: Orders): (s: seq<nat>)
    ensures IsListing(s, o)
  {
    ListFrom(o, o.Keys)
  }

  /** The query sorts by the order, and rows of one order by their id. */
  lemma {:induction false} ListingIsSorted(o: Orders, i: nat, j: nat)
    requires i < j < |Listing(o)|
    ensures var a, b := Listing(o)[i], Listing(o)[j];
            a in o && b in o && (o[a] < o[b] || (o[a] == o[b] && a < b))
  {
    assert Listing(o)[i] in Listing(o) && Listing(o)[j] in Listing(o);
  }

  lemma {:induction false} ListingUnique(s: seq<nat>, t: seq<nat>, o: Orders)
    requires IsListing(s, o) && IsListing(t, o)
    ensures s == t
  {
    assert t != [] ==> t[0] in s;
    if s != [] {
      assert s[0] in t;
      assert t[0] in s;
      var j :| 0 <= j < |t| && t[j] == s[0];
      var i :| 0 <= i < |s| && s[i] == t[0];
      assert s[0] == t[0];
      var o' := o - {s[0]};
      TailListing(s, o);
      TailListing(t, o);
      ListingUnique(s[1..], t[1..], o');
      assert s == [s[0]] + s[1..] && t == [t[0]] + t[1..];
    }
  }

  lemma {:induction false} TailListing(s: seq<nat>, o: Orders)
    requires IsListing(s, o) && s != []
    ensures IsListing(s[1..], o - {s[0]})
  {
  }

  lemma {:induction false} ListingLength(s: seq<nat>, o: Orders)
    requires IsListing(s, o)
    ensures |s| == |o|
  {
    if s == [] {
      assert o.Keys == {};
    } else {
      assert s[0] in s;
      TailListing(s, o);
      ListingLength(s[1..], o - {s[0]});
      assert (o - {s[0]}).Keys == o.Keys - {s[0]};
    }
  }

  // ---------------------------------------------------------------- one write, two phases

  /** The promise of the unique index for one VM. */
  ghost predicate Injective(o: Orders) {
    forall a, b | a in o && b in o && a != b :: o[a] != o[b]
  }

  predicate Taken(o: Orders, id: nat, x: int) {
    exists other | other in o :: other != id && o[other] == x
  }

  /** One UPDATE: the unique index, if it is there, rejects an order that another row has. */
  function Set(o: Orders, indexed: bool, id: nat, x: int): Orders {
    if id !in o || (indexed && Taken(o, id, x)) then o else o[id := x]
  }

  /** What a write gives to row i: a temporary order in phase one, its number in phase two. */
  function Target(temporary: bool, i: nat): int {
    if temporary then TEMP_BASE - i else i
  }

  /** The first k writes of a phase. */
  function Phase(o: Orders, indexed: bool, s: seq<nat>, temporary: bool, k: nat): Orders
    requires k <= |s|
  {
    if k == 0 then o else Set(Phase(o, indexed, s, temporary, k - 1), indexed, s[k - 1], Target(temporary, k - 1))
  }

  predicate NeedsFix(o: Orders, s: seq<nat>)
    requires forall id | id in s :: id in o
  {
    exists i | 0 <= i < |s| :: o[s[i]] != i
  }

  /** The first k of the 2n writes for the rows s. */
  function Steps(o: Orders, indexed: bool, s: seq<nat>, k: nat): Orders {
    if k <= |s| then Phase(o, indexed, s, true, k)
    else Phase(Phase(o, indexed, s, true, |s|), indexed, s, false, if k <= 2 * |s| then k - |s| else |s|)
  }

  /** The table when the migration is stopped after k writes (2n writes are the whole of it). */
  function After(o: Orders, indexed: bool, k: nat): Orders {
    if NeedsFix(o, Listing(o)) then Steps(o, indexed, Listing(o), k) else o
  }

  function Normalize(o: Orders, indexed: bool): Orders {
    After(o, indexed, 2 * |Listing(o)|)
  }

  /** Exactly 0 .. n-1 in the order of the listing. */
  predicate Numbered(o: Orders) {
    !NeedsFix(o, Listing(o))
  }

  // ---------------------------------------------------------------- the same by position

  /** The orders of the rows in s, by position. */
  function Along(o: Orders, s: seq<nat>): (xs: seq<int>)
    requires forall id | id in s :: id in o
    ensures |xs| == |s| && forall i | 0 <= i < |s| :: xs[i] == o[s[i]]
  {
    seq(|s|, i requires 0 <= i < |s| => o[s[i]])
  }

  predicate TakenAt(xs: seq<int>, i: nat, x: int) {
    exists j | 0 <= j < |xs| :: j != i && xs[j] == x
  }

  function SetAt(xs: seq<int>, indexed: bool, i: nat, x: int): seq<int>
    requires i < |xs|
  {
    if indexed && TakenAt(xs, i, x) then xs else xs[i := x]
  }

  function PhaseAt(xs: seq<int>, indexed: bool, temporary: bool, k: nat): (ys: seq<int>)
    requires k <= |xs|
    ensures |ys| == |xs|
  {
    if k == 0 then xs else SetAt(PhaseAt(xs, indexed, temporary, k - 1), indexed, k - 1, Target(temporary, k - 1))
  }

  function OneAt(xs: seq<int>, indexed: bool, k: nat): (ys: seq<int>)
    requires k <= |xs|
  {
    PhaseAt(xs, indexed, true, k)
  }

  function TwoAt(xs: seq<int>, indexed: bool, k: nat): (ys: seq<int>)
    requires k <= |xs|
  {
    PhaseAt(xs, indexed, false, k)
  }

  /** s lists every row of o once, in some order. */
  ghost predicate Covers(s: seq<nat>, o: Orders) {
    && (forall id :: id in s <==> id in o)
    && (forall i, j | 0 <= i < j < |s| :: s[i] != s[j])
  }

  /** xs are the orders of o along the rows s. */
  ghost predicate Runs(o: Orders, s: seq<nat>, xs: seq<int>) {
    Covers(s, o) && Along(o, s) == xs
  }

  lemma {:induction false} SetAlong(o: Orders, indexed: bool, s: seq<nat>, xs: seq<int>, i: nat, x: int)
    requires Runs(o, s, xs) && i < |s|
    ensures Runs(Set(o, indexed, s[i], x), s, SetAt(xs, indexed, i, x))
  {
  }

  lemma {:induction false} StepAlong(o: Orders, indexed: bool, s: seq<nat>, xs: seq<int>, i: nat, temporary: bool,
                                     o': Orders, xs': seq<int>)
    requires Runs(o, s, xs) && i < |s| && o' == Set(o, indexed, s[i], Target(temporary, i))
    requires xs' == SetAt(xs, indexed, i, Target(temporary, i))
    ensures Runs(o', s, xs')
  {
    SetAlong(o, indexed, s, xs, i, Target(temporary, i));
  }

  lemma {:induction false} PhaseAlong(o: Orders, indexed: bool, s: seq<nat>, xs: seq<int>, temporary: bool, k: nat)
    requires Runs(o, s, xs) && k <= |s|
    ensures Runs(Phase(o, indexed, s, temporary, k), s, PhaseAt(xs, indexed, temporary, k))
  {
    if k > 0 {
      PhaseAlong(o, indexed, s, xs, temporary, k - 1);
      StepAlong(Phase(o, indexed, s, temporary, k - 1), indexed, s, PhaseAt(xs, indexed, temporary, k - 1), k - 1,
                temporary, Phase(o, indexed, s, temporary, k), PhaseAt(xs, indexed, temporary, k));
    }
  }

  /** k writes of the migration, by position. */
  function StepsAt(xs: seq<int>, indexed: bool, k: nat): (ys: seq<int>)
    ensures |ys| == |xs|
  {
    if k <= |xs| then OneAt(xs, indexed, k)
    else TwoAt(OneAt(xs, indexed, |xs|), indexed, if k <= 2 * |xs| then k - |xs| else |xs|)
  }

  lemma {:induction false} ListingCovers(s: seq<nat>, o: Orders)
    requires IsListing(s, o)
    ensures Covers(s, o)
  {
  }

  lemma {:induction false} StepsAlong(o: Orders, indexed: bool, s: seq<nat>, xs: seq<int>, k: nat)
    requires Runs(o, s, xs)
    ensures Runs(Steps(o, indexed, s, k), s, StepsAt(xs, indexed, k))
  {
    PhaseAlong(o, indexed, s, xs, true, if k <= |s| then k else |s|);
    if k > |s| {
      PhaseAlong(Phase(o, indexed, s, true, |s|), indexed, s, OneAt(xs, indexed, |s|), false,
                 if k <= 2 * |s| then k - |s| else |s|);
    }
  }

  lemma {:induction false} AfterAlong(o: Orders, indexed: bool, k: nat)
    requires NeedsFix(o, Listing(o))
    ensures Covers(Listing(o), After(o, indexed, k))
    ensures Along(After(o, indexed, k), Listing(o)) == StepsAt(Along(o, Listing(o)), indexed, k)
  {
    ListingCovers(Listing(o), o);
    StepsAlong(o, indexed, Listing(o), Along(o, Listing(o)), k);
  }

  // ---------------------------------------------------------------- what phase one leaves

  ghost predicate Different(xs: seq<int>) {
    forall i, j | 0 <= i < j < |xs| :: xs[i] != xs[j]
  }

  /** The temporary orders of the first p rows fill the slots [top - p, top), highest first, and
      the rest has ordinary orders. */
  ghost predicate Block(xs: seq<int>, p: nat, top: nat) {
    && p <= |xs| && p <= top
    && (forall i | 0 <= i < p :: xs[i] == TEMP_BASE - (top - 1 - i))
    && (forall i | p <= i < |xs| :: xs[i] >= 0)
  }

  /** Whether phase one has moved row i after k writes, starting from a block. */
  predicate Moved(indexed: bool, p: nat, top: nat, i: nat, k: nat) {
    i < k && (!indexed || i < top - p || i >= p)
  }

  /** From a block, the rejected writes are exactly those that swap rows inside it. */
  lemma {:induction false} OneFromBlock(xs: seq<int>, indexed: bool, p: nat, top: nat, k: nat)
    requires Block(xs, p, top) && k <= |xs|
    ensures forall i | 0 <= i < |xs| ::
              OneAt(xs, indexed, k)[i] == if Moved(indexed, p, top, i, k) then TEMP_BASE - i else xs[i]
  {
    if k > 0 {
      OneFromBlock(xs, indexed, p, top, k - 1);
      var q, j := OneAt(xs, indexed, k - 1), k - 1;
      if indexed && !Moved(indexed, p, top, j, k) {
        assert q[top - 1 - j] == TEMP_BASE - j;
      }
    }
  }

  /** Phase two succeeds when no row waits on an order below its own position. */
  lemma {:induction false} TwoNumbers(xs: seq<int>, indexed: bool, k: nat)
    requires k <= |xs| && (indexed ==> forall i | 0 <= i < |xs| :: !(0 <= xs[i] < i))
    ensures forall i | 0 <= i < |xs| :: TwoAt(xs, indexed, k)[i] == if i < k then i else xs[i]
  {
    if k > 0 {
      TwoNumbers(xs, indexed, k - 1);
      var q, j := TwoAt(xs, indexed, k - 1), k - 1;
      assert indexed ==> !TakenAt(q, j, j);
      assert TwoAt(xs, indexed, k) == SetAt(q, indexed, j, j);
    }
  }

  lemma {:induction false} StepsNumberBlock(xs: seq<int>, indexed: bool, p: nat, top: nat)
    requires Block(xs, p, top)
    ensures forall i | 0 <= i < |xs| :: StepsAt(xs, indexed, 2 * |xs|)[i] == i
  {
    OneFromBlock(xs, indexed, p, top, |xs|);
    TwoNumbers(OneAt(xs, indexed, |xs|), indexed, |xs|);
  }

  // ---------------------------------------------------------------- without a crash

  ghost predicate Ascending(xs: seq<int>, s: seq<nat>)
    requires |xs| == |s|
  {
    forall i, j | 0 <= i < j < |s| :: xs[i] < xs[j] || (xs[i] == xs[j] && s[i] < s[j])
  }

  lemma {:induction false} ListingBy(o: Orders, s: seq<nat>)
    requires Covers(s, o) && Ascending(Along(o, s), s)
    ensures Listing(o) == s
  {
    forall i, j | 0 <= i < j < |s| ensures Before(o, s[i], s[j]) {
      assert Along(o, s)[i] == o[s[i]] && Along(o, s)[j] == o[s[j]];
    }
    ListingUnique(s, Listing(o), o);
  }

  lemma {:induction false} ListingAscends(o: Orders)
    ensures Covers(Listing(o), o) && Ascending(Along(o, Listing(o)), Listing(o))
  {
  }

  lemma {:induction false} NumberedBy(o: Orders, s: seq<nat>)
    requires Covers(s, o) && forall i | 0 <= i < |s| :: Along(o, s)[i] == i
    ensures Listing(o) == s && Numbered(o)
  {
    ListingBy(o, s);
    forall i | 0 <= i < |s| ensures o[s[i]] == i {
      assert Along(o, s)[i] == o[s[i]];
    }
  }

  /** From a block the migration numbers the rows in the order in which it found them. */
  lemma {:induction false} NormalizeFromBlock(o: Orders, indexed: bool, p: nat, top: nat)
    requires Block(Along(o, Listing(o)), p, top)
    ensures Numbered(Normalize(o, indexed)) && Listing(Normalize(o, indexed)) == Listing(o)
  {
    if NeedsFix(o, Listing(o)) {
      AfterAlong(o, indexed, 2 * |Listing(o)|);
      StepsNumberBlock(Along(o, Listing(o)), indexed, p, top);
      NumberedBy(Normalize(o, indexed), Listing(o));
    }
  }

  ghost predicate Ordinary(o: Orders) {
    forall id | id in o :: o[id] >= 0
  }

  lemma {:induction false} OrdinaryIsBlock(o: Orders)
    requires Ordinary(o)
    ensures Block(Along(o, Listing(o)), 0, 0)
  {
  }

  /** Without a crash: the interfaces keep their sequence and get 0 .. n-1. */
  lemma {:induction false} NormalizeKeepsSequence(o: Orders, indexed: bool)
    requires Ordinary(o)
    ensures Numbered(Normalize(o, indexed)) && Listing(Normalize(o, indexed)) == Listing(o)
  {
    OrdinaryIsBlock(o);
    NormalizeFromBlock(o, indexed, 0, 0);
  }

  /** A second run finds nothing to do, wherever it is stopped. */
  lemma {:induction false} SecondRunWritesNothing(o: Orders, indexed: bool, indexed': bool, k: nat)
    requires Ordinary(o)
    ensures After(Normalize(o, indexed), indexed', k) == Normalize(o, indexed)
  {
    NormalizeKeepsSequence(o, indexed);
  }

  /** Without a crash no write is rejected: each one puts its row exactly where it is meant to go. */
  lemma {:induction false} NoWriteIsRejected(xs: seq<int>, indexed: bool, k: nat)
    requires Block(xs, 0, 0) && k < 2 * |xs|
    ensures StepsAt(xs, indexed, k + 1) ==
            if k < |xs| then StepsAt(xs, indexed, k)[k := TEMP_BASE - k]
            else StepsAt(xs, indexed, k)[k - |xs| := k - |xs|]
  {
    if k < |xs| {
      OneFromBlock(xs, indexed, 0, 0, k);
      OneFromBlock(xs, indexed, 0, 0, k + 1);
    } else {
      OneFromBlock(xs, indexed, 0, 0, |xs|);
      TwoNumbers(OneAt(xs, indexed, |xs|), indexed, k - |xs|);
      TwoNumbers(OneAt(xs, indexed, |xs|), indexed, k - |xs| + 1);
    }
  }

  // ---------------------------------------------------------------- one crash

  /** The position in the first listing of row i of the rerun: the rows still at temporary orders
      come first, in reverse. */
  function Origin(n: nat, k: nat, i: nat): (j: nat)
    requires k <= 2 * n && i < n
    ensures j < n
  {
    if k <= n then (if i < k then k - 1 - i else i)
    else if i < 2 * n - k then n - 1 - i else i - (2 * n - k)
  }

  function Place(n: nat, k: nat, j: nat): (i: nat)
    requires k <= 2 * n && j < n
    ensures i < n && Origin(n, k, i) == j
  {
    if k <= n then (if j < k then k - 1 - j else j)
    else if j < k - n then j + (2 * n - k) else n - 1 - j
  }

  function Resumed<T>(s: seq<T>, k: nat): (r: seq<T>)
    requires k <= 2 * |s|
    ensures |r| == |s| && forall i | 0 <= i < |s| :: r[i] == s[Origin(|s|, k, i)]
  {
    seq(|s|, i requires 0 <= i < |s| => s[Origin(|s|, k, i)])
  }

  lemma {:induction false} ResumedCovers(s: seq<nat>, o: Orders, k: nat)
    requires Covers(s, o) && k <= 2 * |s|
    ensures Covers(Resumed(s, k), o)
    ensures Along(o, Resumed(s, k)) == Resumed(Along(o, s), k)
  {
    var r := Resumed(s, k);
    forall id ensures id in r <==> id in s {
      if id in r {
        var i :| 0 <= i < |r| && r[i] == id;
        assert s[Origin(|s|, k, i)] in s;
      }
      if id in s {
        var j :| 0 <= j < |s| && s[j] == id;
        assert r[Place(|s|, k, j)] == id;
      }
    }
    assert forall i | 0 <= i < |s| :: Along(o, r)[i] == o[r[i]] == Along(o, s)[Origin(|s|, k, i)];
  }

  function TempRows(n: nat, k: nat): nat
    requires k <= 2 * n
  {
    if k <= n then k else 2 * n - k
  }

  function TopSlot(n: nat, k: nat): nat {
    if k <= n then k else n
  }

  /** The orders after k writes of a first run, by position in its listing. */
  lemma {:induction false} StepsFromOrdinary(xs: seq<int>, indexed: bool, k: nat)
    requires Block(xs, 0, 0) && k <= 2 * |xs|
    ensures var n := |xs|;
            forall j | 0 <= j < n ::
              StepsAt(xs, indexed, k)[j] ==
              if k <= n then (if j < k then TEMP_BASE - j else xs[j])
              else if j < k - n then j else TEMP_BASE - j
  {
    OneFromBlock(xs, indexed, 0, 0, if k <= |xs| then k else |xs|);
    if k > |xs| {
      TwoNumbers(OneAt(xs, indexed, |xs|), indexed, k - |xs|);
    }
  }

  /** In the new sequence the orders form a block and ascend again. */
  lemma {:induction false} ResumedIsBlock(xs: seq<int>, s: seq<nat>, indexed: bool, k: nat)
    requires Block(xs, 0, 0) && k <= 2 * |xs| && |s| == |xs| && Ascending(xs, s)
    ensures Block(Resumed(StepsAt(xs, indexed, k), k), TempRows(|xs|, k), TopSlot(|xs|, k))
    ensures Ascending(Resumed(StepsAt(xs, indexed, k), k), Resumed(s, k))
  {
    StepsFromOrdinary(xs, indexed, k);
  }

  /** What the rerun lists after any number of writes of a first run. */
  lemma {:induction false} CrashAlong(o: Orders, indexed: bool, k: nat)
    requires Ordinary(o) && NeedsFix(o, Listing(o)) && k <= 2 * |Listing(o)|
    ensures var s, c := Listing(o), After(o, indexed, k);
            Listing(c) == Resumed(s, k) && Along(c, Listing(c)) == Resumed(StepsAt(Along(o, s), indexed, k), k)
  {
    OrdinaryIsBlock(o);
    ListingAscends(o);
    AfterAlong(o, indexed, k);
    ResumedIsBlock(Along(o, Listing(o)), Listing(o), indexed, k);
    ResumedCovers(Listing(o), After(o, indexed, k), k);
    ListingBy(After(o, indexed, k), Resumed(Listing(o), k));
  }

  /** The rerun finds a block. */
  lemma {:induction false} CrashLeavesBlock(o: Orders, indexed: bool, k: nat)
    requires Ordinary(o) && NeedsFix(o, Listing(o)) && k <= 2 * |Listing(o)|
    ensures var s, c := Listing(o), After(o, indexed, k);
            Listing(c) == Resumed(s, k) && Block(Along(c, Listing(c)), TempRows(|s|, k), TopSlot(|s|, k))
  {
    OrdinaryIsBlock(o);
    ListingAscends(o);
    CrashAlong(o, indexed, k);
    ResumedIsBlock(Along(o, Listing(o)), Listing(o), indexed, k);
  }

  /** Stop the first run after any write, restart, and let the migration finish: the orders are
      0 .. n-1, with or without the index, although the second run may have writes rejected. */
  lemma {:induction false} CrashThenRerun(o: Orders, indexed: bool, k: nat, indexed': bool)
    requires Ordinary(o) && k <= 2 * |Listing(o)|
    ensures var c := After(o, indexed, k);
            && Numbered(Normalize(c, indexed'))
            && (NeedsFix(o, Listing(o)) ==> Listing(Normalize(c, indexed')) == Resumed(Listing(o), k))
  {
    var s := Listing(o);
    if NeedsFix(o, s) {
      CrashLeavesBlock(o, indexed, k);
      NormalizeFromBlock(After(o, indexed, k), indexed', TempRows(|s|, k), TopSlot(|s|, k));
    }
  }

  // ---------------------------------------------------------------- from any state

  lemma {:induction false} OneKeeps(xs: seq<int>, k: nat)
    requires Different(xs) && k <= |xs|
    ensures Different(OneAt(xs, true, k))
    ensures forall i | 0 <= i < |xs| :: OneAt(xs, true, k)[i] == xs[i] || OneAt(xs, true, k)[i] == TEMP_BASE - i
  {
    if k > 0 {
      OneKeeps(xs, k - 1);
    }
  }

  lemma {:induction false} TwoKeeps(xs: seq<int>, k: nat)
    requires k <= |xs|
    ensures forall i | 0 <= i < |xs| :: TwoAt(xs, true, k)[i] == xs[i] || (i < k && TwoAt(xs, true, k)[i] == i)
  {
    if k > 0 {
      TwoKeeps(xs, k - 1);
    }
  }

  /** A row j that still has an order v < j keeps row v out of its place for good. */
  lemma {:induction false} RejectedForGood(xs: seq<int>, j: nat, k: nat)
    requires Different(xs) && j < |xs| && 0 <= xs[j] < j && k <= |xs|
    ensures TwoAt(xs, true, k)[xs[j]] == xs[xs[j]]
  {
    if k > 0 {
      RejectedForGood(xs, j, k - 1);
      TwoKeeps(xs, k - 1);
      assert k - 1 == xs[j] ==> TwoAt(xs, true, k - 1)[j] == xs[j];
    }
  }

  /** Then some row ends below zero. */
  lemma {:induction false} StuckRow(xs: seq<int>, j: nat) returns (v: nat)
    requires Different(xs) && j < |xs| && 0 <= xs[j] < j
    requires forall a, b | 0 <= a < b < |xs| && xs[a] >= 0 && xs[b] >= 0 :: xs[a] < xs[b]
    ensures v < |xs| && TwoAt(xs, true, |xs|)[v] < 0
    decreases j
  {
    RejectedForGood(xs, j, |xs|);
    v := xs[j];
    if xs[v] >= 0 {
      v := StuckRow(xs, v);
    }
  }

  /** Some row waits on an order below its own position. */
  predicate Waiting(q: seq<int>) {
    exists i | 0 <= i < |q| :: 0 <= q[i] < i
  }

  lemma {:induction false} StepsNumber(xs: seq<int>)
    requires !Waiting(OneAt(xs, true, |xs|))
    ensures forall i | 0 <= i < |xs| :: StepsAt(xs, true, 2 * |xs|)[i] == i
  {
    TwoNumbers(OneAt(xs, true, |xs|), true, |xs|);
  }

  lemma {:induction false} StepsGetStuck(xs: seq<int>, s: seq<nat>) returns (v: nat)
    requires Different(xs) && |s| == |xs| && Ascending(xs, s) && Waiting(OneAt(xs, true, |xs|))
    ensures v < |xs| && StepsAt(xs, true, 2 * |xs|)[v] < 0
  {
    var q := OneAt(xs, true, |xs|);
    OneKeeps(xs, |xs|);
    UnmovedAscend(xs, s, q);
    var j :| 0 <= j < |q| && 0 <= q[j] < j;
    v := StuckRow(q, j);
  }

  lemma {:induction false} UnmovedAscend(xs: seq<int>, s: seq<nat>, q: seq<int>)
    requires |xs| == |s| == |q| && Different(xs) && Ascending(xs, s)
    requires forall i | 0 <= i < |xs| :: q[i] == xs[i] || q[i] == TEMP_BASE - i
    ensures forall a, b | 0 <= a < b < |q| && q[a] >= 0 && q[b] >= 0 :: q[a] < q[b]
  {
  }

  /** Until its own turn a row keeps its order. */
  lemma {:induction false} OneUntouched(xs: seq<int>, k: nat)
    requires k <= |xs|
    ensures forall i | k <= i < |xs| :: OneAt(xs, true, k)[i] == xs[i]
  {
    if k > 0 {
      OneUntouched(xs, k - 1);
    }
  }

  /** After its own turn a row keeps its order for the rest of phase one. */
  lemma {:induction false} OneSettled(xs: seq<int>, k: nat, m: nat)
    requires k <= m <= |xs|
    ensures forall i | 0 <= i < k :: OneAt(xs, true, m)[i] == OneAt(xs, true, k)[i]
  {
    if k < m {
      OneSettled(xs, k, m - 1);
    }
  }

  /** Phase one rejects row i exactly if an earlier row still has, or a later row has, its temporary order. */
  lemma {:induction false} OneTurn(xs: seq<int>, i: nat)
    requires i < |xs|
    ensures var rejected := TakenAt(OneAt(xs, true, i), i, TEMP_BASE - i);
            OneAt(xs, true, |xs|)[i] == if rejected then xs[i] else TEMP_BASE - i
  {
    OneUntouched(xs, i);
    OneSettled(xs, i + 1, |xs|);
  }

  /** Three rows whose stored orders tie a knot: row i belongs above its order, the slot it needs for
      the while is held by row h, and the slot that row h needs by row g. */
  predicate Knot(xs: seq<int>, h: int, g: int, i: int) {
    && 0 <= h < g < i < |xs|
    && 0 <= xs[i] < i && xs[h] == TEMP_BASE - i && xs[g] == TEMP_BASE - h
  }

  predicate Knotted(xs: seq<int>) {
    exists h, g, i | 0 <= h < g < i < |xs| :: Knot(xs, h, g, i)
  }

  lemma {:induction false} KnotWaits(xs: seq<int>, h: int, g: int, i: int)
    requires Knot(xs, h, g, i)
    ensures Waiting(OneAt(xs, true, |xs|))
  {
    OneUntouched(xs, h);
    assert TakenAt(OneAt(xs, true, h), h, TEMP_BASE - h) by { assert OneAt(xs, true, h)[g] == TEMP_BASE - h; }
    OneTurn(xs, h);
    OneSettled(xs, h + 1, i);
    OneSettled(xs, h + 1, |xs|);
    assert TakenAt(OneAt(xs, true, i), i, TEMP_BASE - i) by { assert OneAt(xs, true, i)[h] == TEMP_BASE - i; }
    OneTurn(xs, i);
    assert OneAt(xs, true, |xs|)[i] == xs[i];
  }

  /** A row that phase one rejects owes it to a row that had its temporary order from the start. */
  lemma {:induction false} Rejector(xs: seq<int>, i: nat) returns (h: nat)
    requires i < |xs| && OneAt(xs, true, |xs|)[i] != TEMP_BASE - i
    ensures h < |xs| && h != i && xs[h] == TEMP_BASE - i
    ensures h < i ==> OneAt(xs, true, |xs|)[h] == xs[h]
  {
    OneTurn(xs, i);
    OneUntouched(xs, i);
    OneSettled(xs, i, |xs|);
    var q := OneAt(xs, true, i);
    h :| 0 <= h < |q| && h != i && q[h] == TEMP_BASE - i;
    if h < i {
      OneTurn(xs, h);
    }
  }

  lemma {:induction false} WaitingIsKnot(xs: seq<int>, s: seq<nat>)
    requires |xs| == |s| && Different(xs) && Ascending(xs, s) && Waiting(OneAt(xs, true, |xs|))
    ensures Knotted(xs)
  {
    var q := OneAt(xs, true, |xs|);
    var i :| 0 <= i < |q| && 0 <= q[i] < i;
    OneTurn(xs, i);
    var h := Rejector(xs, i);
    assert h < i;
    var g := Rejector(xs, h);
    assert Knot(xs, h, g, i);
  }

  lemma {:induction false} DifferentAlong(o: Orders, s: seq<nat>)
    requires Covers(s, o)
    ensures Injective(o) <==> Different(Along(o, s))
  {
    assert forall i | 0 <= i < |s| :: Along(o, s)[i] == o[s[i]];
    if Different(Along(o, s)) {
      forall a, b | a in o && b in o && a != b ensures o[a] != o[b] {
        assert a in s && b in s;
        var i :| 0 <= i < |s| && s[i] == a;
        var j :| 0 <= j < |s| && s[j] == b;
      }
    }
  }

  /** From any table under the index, the migration ends at 0 .. n-1 exactly when no three of the
      stored orders tie a knot. */
  lemma {:induction false} NumberedIff(o: Orders)
    requires Injective(o) && NeedsFix(o, Listing(o))
    ensures Numbered(Normalize(o, true)) <==> !Knotted(Along(o, Listing(o)))
  {
    var s := Listing(o);
    var xs := Along(o, s);
    ListingAscends(o);
    DifferentAlong(o, s);
    AfterAlong(o, true, 2 * |s|);
    if Knotted(xs) {
      var h, g, i :| Knot(xs, h, g, i);
      KnotWaits(xs, h, g, i);
      var v := StepsGetStuck(xs, s);
      NegativeIsNotNumbered(Normalize(o, true), s, v);
    } else {
      if Waiting(OneAt(xs, true, |s|)) {
        WaitingIsKnot(xs, s);
      }
      StepsNumber(xs);
      NumberedBy(Normalize(o, true), s);
    }
  }

  lemma {:induction false} NegativeIsNotNumbered(o: Orders, s: seq<nat>, v: nat)
    requires Covers(s, o) && v < |s| && Along(o, s)[v] < 0
    ensures !Numbered(o)
  {
    assert s[v] in Listing(o);
    var i :| 0 <= i < |Listing(o)| && Listing(o)[i] == s[v];
    assert o[Listing(o)[i]] == Along(o, s)[v];
  }

  // ---------------------------------------------------------------- two crashes

  lemma {:induction false} OneWrite(xs: seq<int>)
    requires xs == FIRST_STOP
    ensures StepsAt(xs, true, 1) == [TEMP_BASE, TEMP_BASE - 3, TEMP_BASE - 2, 0, 1]
  {
    assert OneAt(xs, true, 0) == xs;
    assert !TakenAt(xs, 0, TEMP_BASE);
  }

  const FIRST_STOP: seq<int> := [TEMP_BASE - 4, TEMP_BASE - 3, TEMP_BASE - 2, 0, 1]
  const SECOND_STOP: seq<int> := [TEMP_BASE - 3, TEMP_BASE - 2, TEMP_BASE, 0, 1]

  lemma {:induction false} SevenSteps(xs: seq<int>)
    requires Block(xs, 0, 0) && |xs| == 5
    ensures Resumed(StepsAt(xs, true, 7), 7) == FIRST_STOP
  {
    StepsFromOrdinary(xs, true, 7);
  }

  lemma {:induction false} FirstStop(o: Orders)
    requires Ordinary(o) && NeedsFix(o, Listing(o)) && |Listing(o)| == 5
    ensures var c := After(o, true, 7); Along(c, Listing(c)) == FIRST_STOP
  {
    OrdinaryIsBlock(o);
    CrashAlong(o, true, 7);
    SevenSteps(Along(o, Listing(o)));
  }

  lemma {:induction false} NegativeNeedsFix(o: Orders, s: seq<nat>)
    requires s == Listing(o) && s != [] && Along(o, s)[0] < 0
    ensures NeedsFix(o, Listing(o))
  {
  }

  lemma {:induction false} SecondStop(c: Orders)
    requires Along(c, Listing(c)) == FIRST_STOP
    ensures var d := After(c, true, 1); Along(d, Listing(d)) == SECOND_STOP
  {
    var s := Listing(c);
    NegativeNeedsFix(c, s);
    AfterAlong(c, true, 1);
    OneWrite(Along(c, s));
    ListingAscends(c);
    RotatedListing(After(c, true, 1), s);
  }

  lemma {:induction false} RotatedListing(d: Orders, s: seq<nat>)
    requires Covers(s, d) && |s| == 5
    requires Along(d, s) == [TEMP_BASE, TEMP_BASE - 3, TEMP_BASE - 2, 0, 1]
    ensures Along(d, Listing(d)) == SECOND_STOP
  {
    var t := [s[1], s[2], s[0], s[3], s[4]];
    RotatedCovers(s, d);
    assert forall i | 0 <= i < 5 :: Along(d, s)[i] == d[s[i]];
    RotatedAlong(d, s[0], s[1], s[2], s[3], s[4]);
    SecondStopAscends(t);
    ListingBy(d, t);
  }

  lemma {:induction false} RotatedCovers(s: seq<nat>, d: Orders)
    requires Covers(s, d) && |s| == 5
    ensures Covers([s[1], s[2], s[0], s[3], s[4]], d)
  {
    assert s == [s[0], s[1], s[2], s[3], s[4]];
    assert s[0] in d && s[1] in d && s[2] in d && s[3] in d && s[4] in d;
  }

  lemma {:induction false} RotatedAlong(d: Orders, a: nat, b: nat, c: nat, x: nat, y: nat)
    requires a in d && b in d && c in d && x in d && y in d
    requires d[a] == TEMP_BASE && d[b] == TEMP_BASE - 3 && d[c] == TEMP_BASE - 2 && d[x] == 0 && d[y] == 1
    ensures Along(d, [b, c, a, x, y]) == SECOND_STOP
  {
  }

  lemma {:induction false} SecondStopAscends(t: seq<nat>)
    requires |t| == 5
    ensures Ascending(SECOND_STOP, t)
  {
  }

  /** The migration does not survive two crashes: with five interfaces to renumber, stop it after
      write 7, stop the rerun after its first write, and the third run ends with a row below zero. */
  lemma {:induction false} TwoCrashesBreakIt(o: Orders)
    requires Ordinary(o) && NeedsFix(o, Listing(o)) && |Listing(o)| == 5
    ensures !Numbered(Normalize(After(After(o, true, 7), true, 1), true))
  {
    FirstStop(o);
    SecondStop(After(o, true, 7));
    ThirdRunFails(After(After(o, true, 7), true, 1));
  }

  lemma {:induction false} ThirdRunFails(d: Orders)
    requires Along(d, Listing(d)) == SECOND_STOP
    ensures !Numbered(Normalize(d, true))
  {
    var xs := Along(d, Listing(d));
    NegativeNeedsFix(d, Listing(d));
    assert Different(xs) && |xs| == |Listing(d)| == 5;
    assert Knot(xs, 0, 2, 3);
    ListingAscends(d);
    DifferentAlong(d, Listing(d));
    NumberedIff(d);
  }
}
