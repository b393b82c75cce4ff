/** Eleven interfaces, three crashes: two undisturbed starts are not always enough. */
module NicThreeCrashes {
  import opened NicOrder
  import opened NicRuns

  // ---------------------------------------------------------------- what a phase does to given orders

  /** What row i meets in its turn, when earlier rows stand as in q and later ones as in xs. */
  predicate Meets(xs: seq<int>, q: seq<int>, i: nat, x: int)
    requires |xs| == |q| && i < |xs|
  {
    (exists j | 0 <= j < i :: q[j] == x) || (exists j | i < j < |xs| :: xs[j] == x)
  }

  predicate Turn(xs: seq<int>, q: seq<int>, temporary: bool, i: nat)
    requires |xs| == |q| && i < |xs|
  {
    q[i] == if Meets(xs, q, i, Target(temporary, i)) then xs[i] else Target(temporary, i)
  }

  /** Row i stays because row j has its order. */
  lemma {:induction false} Stays(xs: seq<int>, q: seq<int>, temporary: bool, i: nat, j: nat)
    requires |xs| == |q| && i < |xs| && j < |xs| && i != j && q[i] == xs[i]
    requires (if j < i then q[j] else xs[j]) == Target(temporary, i)
    ensures Turn(xs, q, temporary, i)
  {
  }

  lemma {:induction false} PhaseIs(xs: seq<int>, q: seq<int>, temporary: bool, k: nat)
    requires |xs| == |q| && k <= |xs| && forall i | 0 <= i < k :: Turn(xs, q, temporary, i)
    ensures forall i | 0 <= i < |xs| :: PhaseAt(xs, true, temporary, k)[i] == if i < k then q[i] else xs[i]
  {
    if k > 0 {
      PhaseIs(xs, q, temporary, k - 1);
      var r := PhaseAt(xs, true, temporary, k - 1);
      var x := Target(temporary, k - 1);
      assert TakenAt(r, k - 1, x) <==> Meets(xs, q, k - 1, x);
      assert Turn(xs, q, temporary, k - 1);
    }
  }

  ghost predicate Rising(xs: seq<int>) {
    forall i, j | 0 <= i < j < |xs| :: xs[i] < xs[j]
  }

  lemma {:induction false} RisingUnique(a: seq<int>, b: seq<int>)
    requires Rising(a) && Rising(b) && forall v :: v in a <==> v in b
    ensures a == b
  {
    if a != [] {
      assert a[0] in b && b[0] in a;
      assert a[0] == b[0];
      RisingTail(a);
      RisingTail(b);
      RisingUnique(a[1..], b[1..]);
    } else {
      if b != [] { var v := SomethingIn(b); }
    }
  }

  lemma {:induction false} SomethingIn(b: seq<int>) returns (v: int)
    requires b != []
    ensures v in b
  {
    v := b[0];
  }

  lemma {:induction false} RisingTail(a: seq<int>)
    requires Rising(a) && a != []
    ensures Rising(a[1..]) && forall v :: v in a[1..] <==> v in a && v != a[0]
  {
    assert a == [a[0]] + a[1..];
    assert forall i | 0 <= i < |a[1..]| :: a[1..][i] == a[i + 1] > a[0];
  }

  /** The next start lists the rows by their orders. */
  lemma {:induction false} NextListing(o: Orders, s: seq<nat>, raw: seq<int>, ys: seq<int>)
    requires Injective(o) && Covers(s, o) && Along(o, s) == raw && Rising(ys) && SameValues(raw, ys)
    ensures Along(o, Listing(o)) == ys
  {
    var t := Listing(o);
    ListingAscends(o);
    DifferentAlong(o, t);
    forall v ensures v in Along(o, t) <==> v in raw {
      if v in raw { SameOrders(o, s, t, v); }
      if v in Along(o, t) { SameOrders(o, t, s, v); }
    }
    RisingUnique(Along(o, t), ys);
  }

  ghost predicate SameValues(a: seq<int>, b: seq<int>) {
    forall v :: v in a <==> v in b
  }

  lemma {:induction false} SameOrders(o: Orders, s: seq<nat>, t: seq<nat>, v: int)
    requires Covers(s, o) && Covers(t, o) && v in Along(o, s)
    ensures v in Along(o, t)
  {
    var i :| 0 <= i < |s| && Along(o, s)[i] == v;
    assert s[i] in t;
    var j :| 0 <= j < |t| && t[j] == s[i];
    assert Along(o, t)[j] == v;
  }

  // ---------------------------------------------------------------- the case

  const T := TEMP_BASE

  // What the second, third and fourth start leave, by row and after phase one, and as the next one lists it.
  const SECOND_ROWS: seq<int> := [0, 1, 2, 3, T - 5, T - 4, T - 3, T - 2, T - 1, T, T - 10]
  const THIRD_HALF: seq<int> := [T - 10, T - 5, T - 4, T - 3, T - 2, T - 1, T - 6, T - 7, T - 8, T - 9, 3]
  const THIRD_ROWS: seq<int> := [0, 1, 2, T - 3, 4, T - 1, T - 6, T - 7, T - 8, T - 9, 3]
  const FOURTH_HALF: seq<int> := [T, T - 8, T - 2, T - 6, T - 4, T - 5, 0, T - 7, 2, T - 9, T - 10]
  const FOURTH_ROWS: seq<int> := [T, 1, T - 2, 3, 4, 5, 6, 7, 8, 9, 10]
  const SECOND: seq<int> := [T - 10, T - 5, T - 4, T - 3, T - 2, T - 1, T, 0, 1, 2, 3]
  const THIRD: seq<int> := [T - 9, T - 8, T - 7, T - 6, T - 3, T - 1, 0, 1, 2, 3, 4]
  const FOURTH: seq<int> := [T - 2, T, 1, 3, 4, 5, 6, 7, 8, 9, 10]

  /** The second start stops after write 15: all temporary, four of them numbered. */
  lemma {:induction false} SecondSteps(xs: seq<int>)
    requires |xs| == 11 && Block(xs, 10, 10)
    ensures StepsAt(xs, true, 15) == SECOND_ROWS
  {
    OneFromBlock(xs, true, 10, 10, 11);
    TwoNumbers(OneAt(xs, true, 11), true, 4);
  }

  lemma {:induction false} ThirdPhaseOneLow(xs: seq<int>, q: seq<int>)
    requires xs == SECOND && q == THIRD_HALF
    ensures |xs| == |q| == 11 && forall i | 0 <= i < 6 :: Turn(xs, q, true, i)
  {
    Stays(xs, q, true, 0, 6);
    Stays(xs, q, true, 1, 5);
    Stays(xs, q, true, 2, 4);
    assert Turn(xs, q, true, 3);
    Stays(xs, q, true, 4, 2);
    Stays(xs, q, true, 5, 1);
  }

  lemma {:induction false} ThirdPhaseOneHigh(xs: seq<int>, q: seq<int>)
    requires xs == SECOND && q == THIRD_HALF
    ensures |xs| == |q| == 11 && forall i | 6 <= i < 11 :: Turn(xs, q, true, i)
  {
    assert Turn(xs, q, true, 6);
    assert Turn(xs, q, true, 7);
    assert Turn(xs, q, true, 8);
    assert Turn(xs, q, true, 9);
    Stays(xs, q, true, 10, 0);
  }

  lemma {:induction false} ThirdPhaseOne(xs: seq<int>, q: seq<int>)
    requires xs == SECOND && q == THIRD_HALF
    ensures OneAt(xs, true, 11) == q
  {
    ThirdPhaseOneLow(xs, q);
    ThirdPhaseOneHigh(xs, q);
    PhaseIs(xs, q, true, 11);
  }

  lemma {:induction false} ThirdPhaseTwo(q: seq<int>, r: seq<int>)
    requires q == THIRD_HALF && r == THIRD_ROWS
    ensures TwoAt(q, true, 5) == r
  {
    Stays(q, r, false, 3, 10);
    assert Turn(q, r, false, 0) && Turn(q, r, false, 1) && Turn(q, r, false, 2);
    assert Turn(q, r, false, 4);
    PhaseIs(q, r, false, 5);
  }

  /** The third start stops after write 16. */
  lemma {:induction false} ThirdSteps(xs: seq<int>)
    requires xs == SECOND
    ensures StepsAt(xs, true, 16) == THIRD_ROWS
  {
    ThirdPhaseOne(xs, THIRD_HALF);
    ThirdPhaseTwo(THIRD_HALF, THIRD_ROWS);
  }

  lemma {:induction false} FourthPhaseOneLow(xs: seq<int>, q: seq<int>)
    requires xs == THIRD && q == FOURTH_HALF
    ensures |xs| == |q| == 11 && forall i | 0 <= i < 6 :: Turn(xs, q, true, i)
  {
    assert Turn(xs, q, true, 0);
    Stays(xs, q, true, 1, 5);
    assert Turn(xs, q, true, 2);
    Stays(xs, q, true, 3, 4);
    assert Turn(xs, q, true, 4);
    assert Turn(xs, q, true, 5);
  }

  lemma {:induction false} FourthPhaseOneHigh(xs: seq<int>, q: seq<int>)
    requires xs == THIRD && q == FOURTH_HALF
    ensures |xs| == |q| == 11 && forall i | 6 <= i < 11 :: Turn(xs, q, true, i)
  {
    Stays(xs, q, true, 6, 3);
    assert Turn(xs, q, true, 7);
    Stays(xs, q, true, 8, 1);
    assert Turn(xs, q, true, 9);
    assert Turn(xs, q, true, 10);
  }

  lemma {:induction false} FourthPhaseOne(xs: seq<int>, q: seq<int>)
    requires xs == THIRD && q == FOURTH_HALF
    ensures OneAt(xs, true, 11) == q
  {
    FourthPhaseOneLow(xs, q);
    FourthPhaseOneHigh(xs, q);
    PhaseIs(xs, q, true, 11);
  }

  lemma {:induction false} FourthPhaseTwoLow(q: seq<int>, r: seq<int>)
    requires q == FOURTH_HALF
    requires r == FOURTH_ROWS
    ensures |q| == |r| == 11 && forall i | 0 <= i < 6 :: Turn(q, r, false, i)
  {
    Stays(q, r, false, 0, 6);
    assert Turn(q, r, false, 1);
    Stays(q, r, false, 2, 8);
    assert Turn(q, r, false, 3);
    assert Turn(q, r, false, 4);
    assert Turn(q, r, false, 5);
  }

  lemma {:induction false} FourthPhaseTwoHigh(q: seq<int>, r: seq<int>)
    requires q == FOURTH_HALF
    requires r == FOURTH_ROWS
    ensures |q| == |r| == 11 && forall i | 6 <= i < 11 :: Turn(q, r, false, i)
  {
    assert Turn(q, r, false, 6);
    assert Turn(q, r, false, 7);
    assert Turn(q, r, false, 8);
    assert Turn(q, r, false, 9);
    assert Turn(q, r, false, 10);
  }

  lemma {:induction false} FourthPhaseTwo(q: seq<int>, r: seq<int>)
    requires q == FOURTH_HALF
    requires r == FOURTH_ROWS
    ensures TwoAt(q, true, 11) == r
  {
    FourthPhaseTwoLow(q, r);
    FourthPhaseTwoHigh(q, r);
    PhaseIs(q, r, false, 11);
  }

  /** The fourth start is not disturbed, and leaves two rows below zero. */
  lemma {:induction false} FourthSteps(xs: seq<int>)
    requires xs == THIRD
    ensures StepsAt(xs, true, 22) == FOURTH_ROWS
  {
    var q := FOURTH_HALF;
    FourthPhaseOne(xs, q);
    FourthPhaseTwo(q, FOURTH_ROWS);
  }

  lemma {:induction false} SecondValues()
    ensures SameValues(SECOND_ROWS, SECOND) && Rising(SECOND)
  {
  }

  lemma {:induction false} SecondListing(o: Orders)
    requires Injective(o) && Block(Along(o, Listing(o)), 10, 10) && |Listing(o)| == 11
    ensures var c := After(o, true, 15); Along(c, Listing(c)) == SECOND
  {
    NegativeNeedsFix(o, Listing(o));
    AfterAlong(o, true, 15);
    AfterKeepsInjective(o, 15);
    SecondSteps(Along(o, Listing(o)));
    SecondValues();
    NextListing(After(o, true, 15), Listing(o), SECOND_ROWS,
                SECOND);
  }

  lemma {:induction false} ThirdValues()
    ensures SameValues(THIRD_ROWS, THIRD) && Rising(THIRD)
  {
  }

  lemma {:induction false} ThirdListing(o: Orders)
    requires Injective(o) && Along(o, Listing(o)) == SECOND
    ensures var c := After(o, true, 16); Along(c, Listing(c)) == THIRD
  {
    NegativeNeedsFix(o, Listing(o));
    AfterAlong(o, true, 16);
    AfterKeepsInjective(o, 16);
    ThirdSteps(SECOND);
    ThirdValues();
    NextListing(After(o, true, 16), Listing(o), THIRD_ROWS,
                THIRD);
  }

  lemma {:induction false} FourthValues()
    ensures SameValues(FOURTH_ROWS, FOURTH) && Rising(FOURTH)
  {
  }

  lemma {:induction false} FourthListing(o: Orders)
    requires Injective(o) && Along(o, Listing(o)) == THIRD
    ensures var c := Normalize(o, true); Along(c, Listing(c)) == FOURTH
  {
    NegativeNeedsFix(o, Listing(o));
    assert |Listing(o)| == |THIRD| == 11;
    AfterAlong(o, true, 22);
    AfterKeepsInjective(o, 22);
    FourthSteps(THIRD);
    FourthValues();
    NextListing(Normalize(o, true), Listing(o), FOURTH_ROWS,
                FOURTH);
  }

  lemma {:induction false} FifthStartFails(o: Orders)
    requires Injective(o) && Along(o, Listing(o)) == FOURTH
    ensures !Numbered(Normalize(o, true))
  {
    NegativeNeedsFix(o, Listing(o));
    assert Knot(FOURTH, 0, 1, 2);
    NumberedIff(o);
  }

  /** With eleven interfaces to renumber, stop the first start after write 10, the second after write 15
      and the third after write 16: the fourth and the fifth start are not disturbed, and still a row
      is left below zero. */
  lemma {:induction false} TwoRunsAreNotEnough(o: Orders)
    requires Ordinary(o) && Injective(o) && NeedsFix(o, Listing(o)) && |Listing(o)| == 11
    ensures !Numbered(Starts(Crashed(o, [16, 15, 10]), 2))
  {
    var c1 := After(o, true, 10);
    var c2 := After(c1, true, 15);
    var c3 := After(c2, true, 16);
    CrashLeavesBlock(o, true, 10);
    AfterKeepsInjective(o, 10);
    SecondListing(c1);
    AfterKeepsInjective(c1, 15);
    ThirdListing(c2);
    AfterKeepsInjective(c2, 16);
    FourthListing(c3);
    AfterKeepsInjective(c3, 2 * |Listing(c3)|);
    FifthStartFails(Normalize(c3, true));
    CrashedThrice(o);
  }

  lemma {:induction false} CrashedThrice(o: Orders)
    ensures Crashed(o, [16, 15, 10]) == After(After(After(o, true, 10), true, 15), true, 16)
    ensures forall c: Orders :: Starts(c, 2) == Normalize(Normalize(c, true), true)
  {
    assert [16, 15, 10][1..] == [15, 10] && [15, 10][1..] == [10] && [10][1..] == [];
    assert Crashed(o, [10]) == After(o, true, 10);
    assert Crashed(o, [15, 10]) == After(After(o, true, 10), true, 15);
    forall c: Orders ensures Starts(c, 2) == Normalize(Normalize(c, true), true) {
      assert Starts(c, 2) == Starts(Normalize(c, true), 1);
    }
  }
}
