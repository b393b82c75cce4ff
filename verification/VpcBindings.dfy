/** The table of NIC bindings and the migration over all VMs, one row write at a time. */
module VpcBindings {
  import opened Text
  import opened NicOrder

  datatype Row = Row(vm: string, order: int)

  function OrdersOf(rows: map<nat, Row>, vm: string): Orders {
    map id | id in rows && rows[id].vm == vm :: rows[id].order
  }

  /** No two rows share a VM and an order. */
  predicate Distinct(rows: map<nat, Row>) {
    forall a, b | a in rows && b in rows && a != b :: rows[a] != rows[b]
  }

  /** Every VM by itself keeps the promise of the index. */
  ghost predicate AllInjective(rows: map<nat, Row>) {
    forall vm :: Injective(OrdersOf(rows, vm))
  }

  lemma {:induction false} DistinctByVm(rows: map<nat, Row>)
    ensures Distinct(rows) <==> AllInjective(rows)
  {
    if AllInjective(rows) {
      forall a, b | a in rows && b in rows && a != b ensures rows[a] != rows[b] {
        var o := OrdersOf(rows, rows[a].vm);
        assert Injective(o) && a in o && (rows[a].vm == rows[b].vm ==> b in o);
      }
    }
  }

  /** The rows are the same but for the orders of one VM. */
  ghost predicate OnlyVm(before: map<nat, Row>, now: map<nat, Row>, vm: string) {
    && now.Keys == before.Keys
    && (forall id | id in now :: now[id].vm == before[id].vm)
    && forall v | v != vm :: OrdersOf(now, v) == OrdersOf(before, v)
  }

  lemma {:induction false} ConflictIsTaken(rows: map<nat, Row>, id: nat, x: int)
    requires id in rows
    ensures (exists other | other in rows :: other != id && rows[other] == Row(rows[id].vm, x))
            <==> Taken(OrdersOf(rows, rows[id].vm), id, x)
  {
    var vm := rows[id].vm;
    var o := OrdersOf(rows, vm);
    if other :| other in rows && other != id && rows[other] == Row(vm, x) {
      assert other in o;
    }
    if Taken(o, id, x) {
      var other :| other in o && other != id && o[other] == x;
      assert rows[other] == Row(vm, x);
    }
  }

  lemma {:induction false} OneRowChanges(rows: map<nat, Row>, id: nat, x: int)
    requires id in rows
    ensures var vm := rows[id].vm;
            var rows' := rows[id := Row(vm, x)];
            && OnlyVm(rows, rows', vm) && OrdersOf(rows', vm) == OrdersOf(rows, vm)[id := x]
            && (Distinct(rows) && !Taken(OrdersOf(rows, vm), id, x) ==> Distinct(rows'))
  {
    ConflictIsTaken(rows, id, x);
  }

  /** After the crash budget is used up the process is dead and writes nothing more. */
  class BindingTable {
    var rows: map<nat, Row>
    var indexed: bool
    var writesLeft: nat

    constructor (rows: map<nat, Row>, indexed: bool, writesLeft: nat)
      ensures this.rows == rows && this.indexed == indexed && this.writesLeft == writesLeft
    {
      this.rows, this.indexed, this.writesLeft := rows, indexed, writesLeft;
    }

    /** What the unique index is for: while it exists, no two rows share a VM and an order. */
    ghost predicate Valid()
      reads this
    {
      indexed ==> Distinct(rows)
    }

    /** migrateVPCBindingUniqueIndex: creating the index fails over duplicates. Afterwards there is no
        index exactly if some VM has two interfaces of one order. */
    method EnsureIndex()
      requires Valid()
      modifies `indexed
      ensures Valid() && (indexed <==> AllInjective(rows))
    {
      DistinctByVm(rows);
      if !indexed {
        indexed := Distinct(rows);
      }
    }

    /** Model(&binding).Update("interface_order", x). */
    method UpdateOrder(id: nat, x: int)
      requires Valid() && id in rows
      modifies `rows, `writesLeft
      ensures Valid()
      ensures old(writesLeft) == 0 ==> rows == old(rows) && writesLeft == 0
      ensures old(writesLeft) > 0 ==>
                && writesLeft == old(writesLeft) - 1
                && var vm := old(rows)[id].vm; OrdersOf(rows, vm) == Set(OrdersOf(old(rows), vm), indexed, id, x)
      ensures OnlyVm(old(rows), rows, old(rows)[id].vm)
    {
      if writesLeft == 0 {
        return;
      }
      writesLeft := writesLeft - 1;
      var vm := rows[id].vm;
      var conflict := exists other | other in rows :: other != id && rows[other] == Row(vm, x);
      ConflictIsTaken(rows, id, x);
      if !(indexed && conflict) {
        OneRowChanges(rows, id, x);
        rows := rows[id := Row(vm, x)];
      }
    }

    /** One phase of the migration for the listed rows of one VM. */
    method RunPhase(vm: string, ids: seq<nat>, temporary: bool) returns (ghost k: nat)
      requires Valid() && forall id | id in ids :: id in rows && rows[id].vm == vm
      modifies `rows, `writesLeft
      ensures Valid()
      ensures k <= |ids| && OrdersOf(rows, vm) == Phase(OrdersOf(old(rows), vm), indexed, ids, temporary, k)
      ensures OnlyVm(old(rows), rows, vm)
      ensures k < |ids| ==> writesLeft == 0
      ensures old(writesLeft) == 0 ==> k == 0 && rows == old(rows) && writesLeft == 0
    {
      k := 0;
      for i := 0 to |ids|
        invariant Valid()
        invariant k <= i && OrdersOf(rows, vm) == Phase(OrdersOf(old(rows), vm), indexed, ids, temporary, k)
        invariant OnlyVm(old(rows), rows, vm)
        invariant k < i ==> writesLeft == 0
        invariant old(writesLeft) == 0 ==> k == 0 && rows == old(rows) && writesLeft == 0
      {
        assert ids[i] in ids;
        if writesLeft > 0 {
          k := k + 1;
        }
        UpdateOrder(ids[i], if temporary then TEMP_BASE - i else i);
      }
    }

    /** Is some listed row not where its position says? */
    static method CheckOrder(o: Orders, bindings: seq<nat>) returns (needsFix: bool)
      requires forall id | id in bindings :: id in o
      ensures needsFix <==> NeedsFix(o, bindings)
    {
      needsFix := false;
      var i := 0;
      while i < |bindings| && !needsFix
        invariant 0 <= i <= |bindings|
        invariant needsFix ==> NeedsFix(o, bindings)
        invariant !needsFix ==> forall j | 0 <= j < i :: o[bindings[j]] == j
      {
        assert bindings[i] in bindings;
        if o[bindings[i]] != i {
          needsFix := true;
        }
        i := i + 1;
      }
    }

    /** Both phases for the rows of one VM. */
    method RunPhases(vm: string, ids: seq<nat>) returns (ghost k: nat)
      requires Valid() && forall id | id in ids :: id in rows && rows[id].vm == vm
      modifies `rows, `writesLeft
      ensures Valid()
      ensures k <= 2 * |ids| && OrdersOf(rows, vm) == Steps(OrdersOf(old(rows), vm), indexed, ids, k)
      ensures k < 2 * |ids| ==> writesLeft == 0
      ensures OnlyVm(old(rows), rows, vm)
      ensures old(writesLeft) == 0 ==> rows == old(rows) && writesLeft == 0
    {
      ghost var o := OrdersOf(rows, vm);
      k := RunPhase(vm, ids, true);
      ghost var k2 := RunPhase(vm, ids, false);
      StepsCompose(o, indexed, ids, k, k2);
      k := k + k2;
    }

    /** The migration of one VM; k is the number of writes that took place. */
    method NormalizeVm(vm: string) returns (ghost k: nat)
      requires Valid()
      modifies `rows, `writesLeft
      ensures Valid()
      ensures Stopped(OrdersOf(old(rows), vm), indexed, k, writesLeft == 0, OrdersOf(rows, vm))
      ensures OnlyVm(old(rows), rows, vm)
      ensures old(writesLeft) == 0 ==> rows == old(rows) && writesLeft == 0
    {
      var bindings := Listing(OrdersOf(rows, vm));
      var needsFix := CheckOrder(OrdersOf(rows, vm), bindings);
      if needsFix {
        k := RunPhases(vm, bindings);
      } else {
        k := 2 * |bindings|;
      }
    }

    /** The migration over the names of SELECT DISTINCT vm_name, in any order. */
    method NormalizeAll(vmNames: seq<string>)
      requires Valid()
      modifies `rows, `writesLeft
      ensures Valid()
      ensures rows.Keys == old(rows).Keys && forall i | i in rows :: rows[i].vm == old(rows)[i].vm
      ensures Progress(old(rows), indexed, vmNames, writesLeft == 0, rows)
    {
      for i := 0 to |vmNames|
        invariant Valid()
        invariant rows.Keys == old(rows).Keys && forall i | i in rows :: rows[i].vm == old(rows)[i].vm
        invariant Progress(old(rows), indexed, vmNames[..i], writesLeft == 0, rows)
      {
        var vmName := Trim(vmNames[i]);
        ghost var before, wasDead := rows, writesLeft == 0;
        if vmName != "" {
          ghost var k := NormalizeVm(vmName);
          OneMoreVm(old(rows), indexed, vmNames, i, wasDead, before, k, writesLeft == 0, rows);
        } else {
          BlankName(old(rows), indexed, vmNames, i, wasDead, rows);
        }
      }
      assert vmNames[..|vmNames|] == vmNames;
    }
  }

  /** The two migrations as InitDB calls them. */
  method Migrate(t: BindingTable, vmNames: seq<string>)
    requires t.Valid()
    modifies t
    ensures t.Valid() && (t.indexed <==> AllInjective(old(t.rows)))
    ensures Progress(old(t.rows), t.indexed, vmNames, t.writesLeft == 0, t.rows)
  {
    t.EnsureIndex();
    t.NormalizeAll(vmNames);
  }

  /** Start, die after any number of writes or not at all, and start again: if the second start lives,
      every VM with non-negative orders has 0 .. n-1. */
  method MigrateTwice(t: BindingTable, vmNames: seq<string>, writes: nat)
    requires t.Valid()
    modifies t
    ensures t.Valid()
    ensures t.writesLeft > 0 ==>
              forall vm | Covered(vmNames, vm) && Ordinary(OrdersOf(old(t.rows), vm)) :: Numbered(OrdersOf(t.rows, vm))
  {
    Migrate(t, vmNames);
    ghost var mid, indexed, dead := t.rows, t.indexed, t.writesLeft == 0;
    t.writesLeft := writes;
    Migrate(t, vmNames);
    if t.writesLeft > 0 {
      forall vm | Covered(vmNames, vm) && Ordinary(OrdersOf(old(t.rows), vm)) ensures Numbered(OrdersOf(t.rows, vm)) {
        TableSurvivesOneCrash(old(t.rows), indexed, dead, mid, t.indexed, t.rows, vmNames, vm);
      }
    }
  }

  /** `now` is what the migration made of o in k writes, and only a dead process stops early. */
  ghost predicate Stopped(o: Orders, indexed: bool, k: nat, dead: bool, now: Orders) {
    k <= 2 * |Listing(o)| && now == After(o, indexed, k) && (k < 2 * |Listing(o)| ==> dead)
  }

  /** An undisturbed migration of one VM succeeds. */
  predicate CanBeNumbered(o: Orders, indexed: bool) {
    Numbered(Normalize(o, indexed))
  }

  /** The orders after a number of undisturbed migrations of one VM. */
  function Rounds(o: Orders, indexed: bool, count: nat): Orders {
    if count == 0 then o else Normalize(Rounds(o, indexed, count - 1), indexed)
  }

  /** The orders of a VM that came up `count` times: that many rounds, or fewer and a part of the next
      one if the process died in it. */
  ghost predicate Reached(o: Orders, indexed: bool, count: nat, dead: bool, now: Orders) {
    now == Rounds(o, indexed, count) || (dead && exists m, k :: CutInRound(o, indexed, count, m, k, now))
  }

  ghost predicate CutInRound(o: Orders, indexed: bool, count: nat, m: nat, k: nat, now: Orders) {
    && m < count && k <= 2 * |Listing(Rounds(o, indexed, m))|
    && now == After(Rounds(o, indexed, m), indexed, k)
  }

  /** How often the names come to the rows of a VM: they are trimmed, and an empty one is passed over. */
  function Visits(vmNames: seq<string>, vm: string): nat {
    if vmNames == [] then 0
    else Visits(vmNames[..|vmNames| - 1], vm)
         + if vm != "" && Trim(vmNames[|vmNames| - 1]) == vm then 1 else 0
  }

  /** Where the migration over `names` stands, for every VM. */
  ghost predicate Progress(first: map<nat, Row>, indexed: bool, names: seq<string>, dead: bool, now: map<nat, Row>) {
    forall vm :: Reached(OrdersOf(first, vm), indexed, Visits(names, vm), dead, OrdersOf(now, vm))
  }

  /** The names the migration looks up: trimmed, and not empty. */
  predicate Covered(vmNames: seq<string>, vm: string) {
    vm != "" && exists n | n in vmNames :: Trim(n) == vm
  }

  lemma {:induction false} CoveredIsVisited(vmNames: seq<string>, vm: string)
    ensures Covered(vmNames, vm) <==> Visits(vmNames, vm) > 0
  {
    if vmNames != [] {
      var front, last := vmNames[..|vmNames| - 1], vmNames[|vmNames| - 1];
      CoveredIsVisited(front, vm);
      assert vmNames == front + [last];
    }
  }

  lemma {:induction false} VisitsNext(vmNames: seq<string>, i: nat, vm: string)
    requires i < |vmNames|
    ensures Visits(vmNames[..i + 1], vm) ==
            Visits(vmNames[..i], vm) + if vm != "" && Trim(vmNames[i]) == vm then 1 else 0
  {
    assert vmNames[..i + 1][..i] == vmNames[..i];
  }

  lemma {:induction false} StepsCompose(o: Orders, indexed: bool, s: seq<nat>, k1: nat, k2: nat)
    requires k1 <= |s| && k2 <= |s| && (k1 < |s| ==> k2 == 0)
    ensures Phase(Phase(o, indexed, s, true, k1), indexed, s, false, k2) == Steps(o, indexed, s, k1 + k2)
  {
  }

  /** One more visit to a VM: one more round, or the point where the process died. */
  lemma {:induction false} VisitAgain(o: Orders, indexed: bool, count: nat, wasDead: bool, before: Orders,
                                      k: nat, dead: bool, now: Orders)
    requires Reached(o, indexed, count, wasDead, before) && Stopped(before, indexed, k, dead, now)
    requires wasDead ==> dead && now == before
    ensures Reached(o, indexed, count + 1, dead, now)
  {
    if before == Rounds(o, indexed, count) {
      if k < 2 * |Listing(before)| {
        assert CutInRound(o, indexed, count + 1, count, k, now);
      }
    } else {
      var m, k0 :| CutInRound(o, indexed, count, m, k0, before);
      assert CutInRound(o, indexed, count + 1, m, k0, now);
    }
  }

  lemma {:induction false} DeadForGood(o: Orders, indexed: bool, count: nat, wasDead: bool, dead: bool, now: Orders)
    requires Reached(o, indexed, count, wasDead, now) && (wasDead ==> dead)
    ensures Reached(o, indexed, count, dead, now)
  {
  }

  lemma {:induction false} NextForVm(o: Orders, indexed: bool, count: nat, count': nat,
                                     wasDead: bool, before: Orders, k: nat, dead: bool, now: Orders)
    requires Reached(o, indexed, count, wasDead, before) && (wasDead ==> dead && now == before)
    requires if count' == count + 1 then Stopped(before, indexed, k, dead, now) else count' == count && now == before
    ensures Reached(o, indexed, count', dead, now)
  {
    if count' == count + 1 {
      VisitAgain(o, indexed, count, wasDead, before, k, dead, now);
    } else {
      DeadForGood(o, indexed, count, wasDead, dead, now);
    }
  }

  lemma {:induction false} OneMoreVm(first: map<nat, Row>, indexed: bool, vmNames: seq<string>, i: nat, wasDead: bool,
                                     before: map<nat, Row>, k: nat, dead: bool, now: map<nat, Row>)
    requires i < |vmNames| && Trim(vmNames[i]) != "" && Progress(first, indexed, vmNames[..i], wasDead, before)
    requires var vmName := Trim(vmNames[i]); Stopped(OrdersOf(before, vmName), indexed, k, dead, OrdersOf(now, vmName))
    requires forall vm | vm != Trim(vmNames[i]) :: OrdersOf(now, vm) == OrdersOf(before, vm)
    requires wasDead ==> dead && now == before
    ensures Progress(first, indexed, vmNames[..i + 1], dead, now)
  {
    forall vm
      ensures Reached(OrdersOf(first, vm), indexed, Visits(vmNames[..i + 1], vm), dead, OrdersOf(now, vm))
    {
      VisitsNext(vmNames, i, vm);
      NextForVm(OrdersOf(first, vm), indexed, Visits(vmNames[..i], vm), Visits(vmNames[..i + 1], vm),
                wasDead, OrdersOf(before, vm), k, dead, OrdersOf(now, vm));
    }
  }

  lemma {:induction false} BlankName(first: map<nat, Row>, indexed: bool, vmNames: seq<string>, i: nat, dead: bool,
                                     now: map<nat, Row>)
    requires i < |vmNames| && Trim(vmNames[i]) == "" && Progress(first, indexed, vmNames[..i], dead, now)
    ensures Progress(first, indexed, vmNames[..i + 1], dead, now)
  {
    forall vm
      ensures Reached(OrdersOf(first, vm), indexed, Visits(vmNames[..i + 1], vm), dead, OrdersOf(now, vm))
    {
      VisitsNext(vmNames, i, vm);
    }
  }

  lemma {:induction false} NumberedStays(o: Orders, indexed: bool, k: nat)
    requires Numbered(o)
    ensures After(o, indexed, k) == o
  {
  }

  /** Under a second spelling of its name a VM is not touched again, if the first one numbered it. */
  lemma {:induction false} LaterRoundsDoNothing(o: Orders, indexed: bool, count: nat)
    requires CanBeNumbered(o, indexed) && count > 0
    ensures Rounds(o, indexed, count) == Normalize(o, indexed)
  {
    if count > 1 {
      LaterRoundsDoNothing(o, indexed, count - 1);
      NumberedStays(Normalize(o, indexed), indexed, 2 * |Listing(Normalize(o, indexed))|);
    } else {
      assert Rounds(o, indexed, 0) == o;
    }
  }

  /** Wherever the process dies: what it leaves of non-negative orders can be numbered. */
  lemma {:induction false} ReachedCanBeNumbered(o: Orders, indexed: bool, count: nat, mid: Orders, indexed': bool)
    requires Ordinary(o) && count > 0 && Reached(o, indexed, count, true, mid)
    ensures CanBeNumbered(mid, indexed')
  {
    NormalizeKeepsSequence(o, indexed);
    var done := Normalize(o, indexed);
    NumberedStays(done, indexed', 2 * |Listing(done)|);
    if mid == Rounds(o, indexed, count) {
      LaterRoundsDoNothing(o, indexed, count);
    } else {
      var m, k :| CutInRound(o, indexed, count, m, k, mid);
      if m > 0 {
        LaterRoundsDoNothing(o, indexed, m);
        NumberedStays(done, indexed, k);
      } else {
        CrashThenRerun(o, indexed, k, indexed');
      }
    }
  }

  /** A migration of the whole table that dies anywhere, and one that does not die after it: every
      covered VM whose orders were not negative ends at 0 .. n-1. */
  lemma {:induction false} TableSurvivesOneCrash(first: map<nat, Row>, indexed: bool, dead: bool, mid: map<nat, Row>,
                                                 indexed': bool, now: map<nat, Row>, vmNames: seq<string>, vm: string)
    requires Progress(first, indexed, vmNames, dead, mid) && Progress(mid, indexed', vmNames, false, now)
    requires Covered(vmNames, vm) && Ordinary(OrdersOf(first, vm))
    ensures Numbered(OrdersOf(now, vm))
  {
    var o, count := OrdersOf(first, vm), Visits(vmNames, vm);
    CoveredIsVisited(vmNames, vm);
    DeadForGood(o, indexed, count, dead, true, OrdersOf(mid, vm));
    ReachedCanBeNumbered(o, indexed, count, OrdersOf(mid, vm), indexed');
    LaterRoundsDoNothing(OrdersOf(mid, vm), indexed', count);
  }
}
