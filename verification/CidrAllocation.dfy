/** Giving every switch without a CIDR the next free /24 network of the configured prefix. */
module CidrAllocation {
  import Text
  import opened Decimal
  import opened Sets

  datatype Switch = Switch(id: nat, cidr: string)

  predicate IsCut(c: char) {
    c == '.' || c == ' '
  }

  /** strings.Trim(s, ". "). */
  function TrimCut(s: string): (r: string)
    ensures r != "" ==> !IsCut(r[0]) && !IsCut(r[|r| - 1])
    ensures r == "" <==> forall c | c in s :: IsCut(c)
  {
    if s == "" then s
    else if IsCut(s[0]) then
      assert forall c | c in s :: c == s[0] || c in s[1..];
      TrimCut(s[1..])
    else if IsCut(s[|s| - 1]) then
      assert s[0] in s[..|s| - 1];
      TrimCut(s[..|s| - 1])
    else s
  }

  predicate DotsAndBlanks(s: string) {
    forall i | 0 <= i < |s| :: s[i] == '.' || s[i] == ' '
  }

  /** Trimming takes dots and blanks off both ends and nothing else. */
  lemma {:induction false} TrimCutParts(s: string) returns (a: string, b: string)
    ensures s == a + TrimCut(s) + b && DotsAndBlanks(a) && DotsAndBlanks(b)
  {
    a, b := "", "";
    if s == "" {
    } else if IsCut(s[0]) {
      a, b := TrimCutParts(s[1..]);
      assert s == [s[0]] + s[1..];
      a := [s[0]] + a;
    } else if IsCut(s[|s| - 1]) {
      a, b := TrimCutParts(s[..|s| - 1]);
      assert s == s[..|s| - 1] + [s[|s| - 1]];
      b := b + [s[|s| - 1]];
    }
  }

  /** The prefix the networks are made of, and the one that stands in for an empty setting. */
  function PrefixOf(configured: string): string {
    var prefix := TrimCut(configured);
    if prefix == "" then "10.200" else prefix
  }

  /** fmt.Sprintf("%s.%d.0/24", prefix, idx). */
  function CidrOf(prefix: string, idx: nat): (r: string)
    ensures r != ""
  {
    prefix + "." + DigitsOf(idx) + ".0/24"
  }

  /** The networks of a prefix, by index. */
  function Networks(prefix: string): nat -> string {
    (idx: nat) => CidrOf(prefix, idx)
  }

  /** Different indexes give different texts, and none is the empty one. */
  ghost predicate Proper(name: nat -> string) {
    forall a: nat, b: nat :: name(a) != "" && (name(a) == name(b) ==> a == b)
  }

  lemma {:induction false} CidrIsInjective(prefix: string, a: nat, b: nat)
    requires CidrOf(prefix, a) == CidrOf(prefix, b)
    ensures a == b
  {
    var front, back := prefix + ".", ".0/24";
    assert forall n | n == a || n == b :: CidrOf(prefix, n) == front + DigitsOf(n) + back;
    assert |DigitsOf(a)| == |DigitsOf(b)|;
    assert forall n | n == a || n == b :: CidrOf(prefix, n)[|front|..|front| + |DigitsOf(n)|] == DigitsOf(n);
    DigitsAreInjective(a, b);
  }

  lemma {:induction false} NetworksAreProper(prefix: string)
    ensures Proper(Networks(prefix))
  {
    var name := Networks(prefix);
    forall a: nat, b: nat ensures name(a) != "" && (name(a) == name(b) ==> a == b) {
      if name(a) == name(b) {
        CidrIsInjective(prefix, a, b);
      }
    }
  }

  predicate CleanPrefix(p: string) {
    p != "" && p[0] != '.' && p[0] != ' ' && p[|p| - 1] != '.' && p[|p| - 1] != ' '
  }

  /** A setting that is a clean prefix with any dots and blanks around it gives that prefix. */
  lemma {:induction false} PrefixOfCleaned(a: string, p: string, b: string)
    requires DotsAndBlanks(a) && DotsAndBlanks(b) && CleanPrefix(p)
    ensures PrefixOf(a + p + b) == p
  {
    CutAround(a, p, b);
  }

  lemma {:induction false} CutAround(a: string, p: string, b: string)
    requires DotsAndBlanks(a) && DotsAndBlanks(b) && CleanPrefix(p)
    ensures TrimCut(a + p + b) == p
    decreases |a| + |b|
  {
    var s := a + p + b;
    if a != "" {
      assert s[1..] == a[1..] + p + b;
      CutAround(a[1..], p, b);
    } else if b != "" {
      assert s[..|s| - 1] == a + p + b[..|b| - 1];
      CutAround(a, p, b[..|b| - 1]);
    } else {
      assert s == p;
    }
  }

  /** A setting of dots and blanks alone stands for the default prefix. */
  lemma {:induction false} EmptyPrefix(configured: string)
    requires DotsAndBlanks(configured)
    ensures PrefixOf(configured) == "10.200"
  {
  }

  /** A network in writing: the prefix, the index in decimal, and the length of the mask. */
  ghost predicate Writes(cidr: string, p: string, idx: nat, digits: string) {
    && cidr == p + "." + digits + ".0/24"
    && digits != "" && AllDigits(digits) && ParseDigits(digits) == Text.Some(idx) && (idx > 0 ==> digits[0] != '0')
  }

  lemma {:induction false} NetworkInWriting(p: string, idx: nat)
    ensures Writes(Networks(p)(idx), p, idx, DigitsOf(idx))
  {
    ParseOfDigits(idx);
    if idx > 0 { NoLeadingZero(idx); }
  }

  ghost function UsedBy(rows: seq<Switch>): set<string> {
    set i | 0 <= i < |rows| && rows[i].cidr != "" :: rows[i].cidr
  }

  /** How many positive indexes below n have a network that nobody uses. */
  ghost function FreeBelow(used: set<string>, name: nat -> string, n: nat): nat {
    if n <= 1 then 0 else FreeBelow(used, name, n - 1) + if name(n - 1) in used then 0 else 1
  }

  /** idx is free, and exactly k smaller positive indexes are free too. */
  ghost predicate KthFree(used: set<string>, name: nat -> string, k: nat, idx: nat) {
    1 <= idx && name(idx) !in used && FreeBelow(used, name, idx) == k
  }

  /** How many of the first n switches have no CIDR. */
  function Empties(rows: seq<Switch>, n: nat): (k: nat)
    requires n <= |rows|
    ensures k <= n
  {
    if n == 0 then 0 else Empties(rows, n - 1) + if rows[n - 1].cidr == "" then 1 else 0
  }

  /** Every switch that had a CIDR keeps it; the k-th without one gets the k-th free network. */
  ghost predicate Filled(before: seq<Switch>, name: nat -> string, after: seq<Switch>) {
    && |after| == |before|
    && forall i | 0 <= i < |before| :: FilledAt(before, name, i, after[i])
  }

  ghost predicate FilledAt(before: seq<Switch>, name: nat -> string, i: nat, now: Switch)
    requires i < |before|
  {
    && now.id == before[i].id
    && (before[i].cidr != "" ==> now == before[i])
    && (before[i].cidr == "" ==> Assigned(UsedBy(before), name, Empties(before, i), now.cidr))
  }

  ghost predicate Assigned(used: set<string>, name: nat -> string, k: nat, cidr: string) {
    exists idx :: KthFree(used, name, k, idx) && cidr == name(idx)
  }

  /** The names of the positive indexes below n. */
  ghost function NamesBelow(name: nat -> string, n: nat): set<string> {
    if n <= 1 then {} else NamesBelow(name, n - 1) + {name(n - 1)}
  }

  lemma {:induction false} NextNameIsNew(name: nat -> string, n: nat, m: nat)
    requires Proper(name) && n <= m
    ensures name(m) !in NamesBelow(name, n)
  {
    if n > 1 {
      NextNameIsNew(name, n - 1, m);
    }
  }

  /** The run stands at index `at`, has handed out k networks, and has met every smaller free one. */
  ghost predicate RunAt(before: set<string>, name: nat -> string, k: nat, at: nat, used: set<string>) {
    1 <= at && used == before + NamesBelow(name, at) && FreeBelow(before, name, at) == k
  }

  lemma {:induction false} SearchGoesOn(before: set<string>, name: nat -> string, k: nat, at: nat, used: set<string>)
    requires Proper(name) && RunAt(before, name, k, at, used) && name(at) in used
    ensures RunAt(before, name, k, at + 1, used)
    ensures at <= k + |before|
  {
    NextNameIsNew(name, at, at);
    Counted(before, name, at + 1);
  }

  lemma {:induction false} SearchEnds(before: set<string>, name: nat -> string, k: nat, idx: nat, cidr: string,
                                      used: set<string>)
    requires 1 <= idx && RunAt(before, name, k, idx - 1, used) && cidr == name(idx - 1) && cidr !in used
    ensures KthFree(before, name, k, idx - 1)
    ensures RunAt(before, name, k + 1, idx, used + {cidr})
  {
  }

  /** Below n every positive index is free or takes up one used name. */
  lemma {:induction false} Counted(used: set<string>, name: nat -> string, n: nat)
    requires Proper(name) && 1 <= n
    ensures n - 1 <= FreeBelow(used, name, n) + |used|
  {
    CountedExactly(used, name, n);
    SubsetBound(used * NamesBelow(name, n), used);
  }

  lemma {:induction false} CountedExactly(used: set<string>, name: nat -> string, n: nat)
    requires Proper(name) && 1 <= n
    ensures n - 1 == FreeBelow(used, name, n) + |used * NamesBelow(name, n)|
    decreases n
  {
    if n == 1 {
      assert used * NamesBelow(name, n) == {};
    } else {
      var m := n - 1;
      CountedExactly(used, name, m);
      NextNameIsNew(name, m, m);
      var shared := used * NamesBelow(name, m);
      assert used * NamesBelow(name, n) == if name(m) in used then shared + {name(m)} else shared;
    }
  }

  class SwitchTable {
    /** The rows of vpc_switches in the order of their ids. */
    var rows: seq<Switch>

    constructor (rows: seq<Switch>)
      ensures this.rows == rows
    {
      this.rows := rows;
    }

    /** The search for the next network nobody uses. */
    static method NextCidr(name: nat -> string, used: set<string>, first: nat, ghost before: set<string>, ghost k: nat)
      returns (cidr: string, idx: nat)
      requires Proper(name) && RunAt(before, name, k, first, used)
      ensures 1 <= idx && cidr == name(idx - 1) && KthFree(before, name, k, idx - 1)
      ensures RunAt(before, name, k + 1, idx, used + {cidr})
    {
      cidr := name(first);
      idx := first + 1;
      while cidr in used
        invariant 1 <= idx && cidr == name(idx - 1) && RunAt(before, name, k, idx - 1, used)
        decreases k + |before| + 1 - idx
      {
        SearchGoesOn(before, name, k, idx - 1, used);
        cidr := name(idx);
        idx := idx + 1;
      }
      SearchEnds(before, name, k, idx, cidr, used);
    }

    /** The allocation of migrateVPCSwitchCIDRColumn. */
    method FillCidrs(configured: string)
      modifies this
      ensures Filled(old(rows), Networks(PrefixOf(configured)), rows)
    {
      var name := Networks(PrefixOf(configured));
      NetworksAreProper(PrefixOf(configured));
      var switches := rows;
      var used: set<string> := {};
      for i := 0 to |switches|
        invariant rows == switches && used == UsedBy(switches[..i])
      {
        if switches[i].cidr != "" {
          used := used + {switches[i].cidr};
        }
        UsedNext(switches, i);
      }
      assert switches[..|switches|] == switches;
      ghost var before := UsedBy(switches);
      var idx := 1;
      for i := 0 to |switches|
        invariant RunAt(before, name, Empties(switches, i), idx, used)
        invariant |rows| == |switches|
        invariant forall j | 0 <= j < i :: FilledAt(switches, name, j, rows[j])
        invariant forall j | i <= j < |rows| :: rows[j] == switches[j]
      {
        if switches[i].cidr == "" {
          var cidr;
          cidr, idx := NextCidr(name, used, idx, before, Empties(switches, i));
          used := used + {cidr};
          rows := rows[i := Switch(switches[i].id, cidr)];
        }
      }
    }
  }

  lemma {:induction false} UsedNext(rows: seq<Switch>, i: nat)
    requires i < |rows|
    ensures UsedBy(rows[..i + 1]) == UsedBy(rows[..i]) + if rows[i].cidr == "" then {} else {rows[i].cidr}
  {
  }

  // ---------------------------------------------------------------- what the allocation means

  /** The k-th free index is one number, and it grows with k. */
  lemma {:induction false} KthFreeAscends(used: set<string>, name: nat -> string, k: nat, a: nat, k': nat, b: nat)
    requires KthFree(used, name, k, a) && KthFree(used, name, k', b)
    ensures a < b <==> k < k'
    ensures a == b <==> k == k'
  {
    if a < b {
      FreeGrows(used, name, a, b);
    } else if b < a {
      FreeGrows(used, name, b, a);
    }
  }

  lemma {:induction false} FreeGrows(used: set<string>, name: nat -> string, a: nat, b: nat)
    requires 1 <= a <= b
    ensures FreeBelow(used, name, a) <= FreeBelow(used, name, b)
    ensures a < b && name(a) !in used ==> FreeBelow(used, name, a) < FreeBelow(used, name, b)
    decreases b
  {
    if a < b {
      FreeGrows(used, name, a, b - 1);
    }
  }

  /** No CIDR handed out is one that was there, and no two are the same. */
  lemma {:induction false} NewCidrsAreDistinct(before: seq<Switch>, name: nat -> string, after: seq<Switch>,
                                               i: nat, j: nat)
    requires Proper(name) && Filled(before, name, after) && i < |before| && j < |before| && i != j
    requires before[i].cidr == ""
    ensures after[i].cidr != "" && after[i].cidr != after[j].cidr
  {
    assert FilledAt(before, name, i, after[i]) && FilledAt(before, name, j, after[j]);
    var used := UsedBy(before);
    var a :| KthFree(used, name, Empties(before, i), a) && after[i].cidr == name(a);
    if before[j].cidr == "" {
      var b :| KthFree(used, name, Empties(before, j), b) && after[j].cidr == name(b);
      if i < j { EmptiesAscend(before, i, j); } else { EmptiesAscend(before, j, i); }
      KthFreeAscends(used, name, Empties(before, i), a, Empties(before, j), b);
    } else {
      assert before[j].cidr in used;
    }
  }

  lemma {:induction false} EmptiesAscend(rows: seq<Switch>, i: nat, j: nat)
    requires i < j <= |rows| && rows[i].cidr == ""
    ensures Empties(rows, i) < Empties(rows, j)
    decreases j
  {
    if i < j - 1 {
      EmptiesAscend(rows, i, j - 1);
    }
  }

  /** A partial unique index over non-empty CIDRs holds afterwards if it held before. */
  lemma {:induction false} UniqueStaysUnique(before: seq<Switch>, name: nat -> string, after: seq<Switch>)
    requires Proper(name) && Filled(before, name, after)
    ensures Unique(after) <==> Unique(before)
    ensures forall i | 0 <= i < |after| :: after[i].cidr != ""
  {
    forall i | 0 <= i < |after| ensures after[i].cidr != "" {
      assert FilledAt(before, name, i, after[i]);
    }
    forall i, j | 0 <= i < j < |after|
      ensures after[i].cidr == after[j].cidr <==> before[i].cidr == before[j].cidr != ""
    {
      assert FilledAt(before, name, i, after[i]) && FilledAt(before, name, j, after[j]);
      if before[i].cidr == "" {
        NewCidrsAreDistinct(before, name, after, i, j);
      } else if before[j].cidr == "" {
        NewCidrsAreDistinct(before, name, after, j, i);
      }
    }
  }

  predicate Unique(rows: seq<Switch>) {
    forall i, j | 0 <= i < j < |rows| && rows[i].cidr != "" :: rows[i].cidr != rows[j].cidr
  }

  /** An assigned index is at most the number of switches. */
  lemma {:induction false} IndexWithinCount(before: seq<Switch>, name: nat -> string, i: nat, idx: nat)
    requires Proper(name) && i < |before| && before[i].cidr == ""
    requires KthFree(UsedBy(before), name, Empties(before, i), idx)
    ensures idx <= |before|
  {
    var used := UsedBy(before);
    Counted(used, name, idx);
    UsedCount(before, |before|);
    assert before[..|before|] == before;
    EmptiesAscend(before, i, |before|);
  }

  lemma {:induction false} UsedCount(rows: seq<Switch>, n: nat)
    requires n <= |rows|
    ensures |UsedBy(rows[..n])| + Empties(rows, n) <= n
    decreases n
  {
    if n > 0 {
      UsedCount(rows, n - 1);
      UsedNext(rows, n - 1);
    }
  }

  /** What is handed out for a configured prefix, in writing: the prefix itself with an index of at most
      the number of switches. */
  lemma {:induction false} HandedOutInWriting(a: string, p: string, b: string, before: seq<Switch>,
                                              after: seq<Switch>, i: nat)
    returns (idx: nat, digits: string)
    requires DotsAndBlanks(a) && DotsAndBlanks(b) && CleanPrefix(p)
    requires Filled(before, Networks(PrefixOf(a + p + b)), after) && i < |before| && before[i].cidr == ""
    ensures Writes(after[i].cidr, p, idx, digits) && 1 <= idx <= |before|
    ensures KthFree(UsedBy(before), Networks(p), Empties(before, i), idx)
  {
    PrefixOfCleaned(a, p, b);
    NetworksAreProper(p);
    assert FilledAt(before, Networks(p), i, after[i]);
    idx :| KthFree(UsedBy(before), Networks(p), Empties(before, i), idx) && after[i].cidr == Networks(p)(idx);
    digits := DigitsOf(idx);
    NetworkInWriting(p, idx);
    IndexWithinCount(before, Networks(p), i, idx);
  }

  /** The octet is in range exactly when the first 255 networks have room for the k-th newcomer. */
  lemma {:induction false} OctetFitsIff(used: set<string>, name: nat -> string, k: nat, idx: nat)
    requires KthFree(used, name, k, idx)
    ensures idx <= 255 <==> k < FreeBelow(used, name, 256)
  {
    if idx <= 255 {
      FreeGrows(used, name, idx, 256);
    } else {
      FreeGrows(used, name, 256, idx);
    }
  }
}
