/** Strings as the Go runtime sees them, one `char` a Unicode scalar value:
    trimming, searching, splitting into lines, and sorting. */
module Text {

  datatype Option<+T> = None | Some(value: T)

  /** unicode.IsSpace, the class that strings.TrimSpace and strings.Fields use. */
  predicate IsSpace(c: char) {
    || c == ' '
    || '\t' <= c <= '\r'
    || c == '\U{0085}' || c == '\U{00A0}' || c == '\U{1680}'
    || '\U{2000}' <= c <= '\U{200A}'
    || c == '\U{2028}' || c == '\U{2029}' || c == '\U{202F}'
    || c == '\U{205F}' || c == '\U{3000}'
  }

  /** The characters of Unicode's White_Space property, one by one. */
  lemma {:induction false} IsSpaceIff(c: char)
    ensures IsSpace(c) <==>
            c as int in {0x9, 0xA, 0xB, 0xC, 0xD, 0x20, 0x85, 0xA0, 0x1680, 0x2000, 0x2001, 0x2002, 0x2003, 0x2004,
                         0x2005, 0x2006, 0x2007, 0x2008, 0x2009, 0x200A, 0x2028, 0x2029, 0x202F, 0x205F, 0x3000}
  {
  }

  predicate AllSpace(s: string) {
    forall i | 0 <= i < |s| :: IsSpace(s[i])
  }

  function TrimLeft(s: string): (r: string)
    ensures r != "" ==> !IsSpace(r[0])
  {
    if s == "" || !IsSpace(s[0]) then s else TrimLeft(s[1..])
  }

  function TrimRight(s: string): (r: string)
    ensures r <= s
    ensures r != "" ==> !IsSpace(r[|r| - 1])
  {
    if s == "" || !IsSpace(s[|s| - 1]) then s else TrimRight(s[..|s| - 1])
  }

  /** strings.TrimSpace. */
  function Trim(s: string): string {
    TrimRight(TrimLeft(s))
  }

  /** No blank at either end. */
  predicate Trimmed(s: string) {
    s != "" ==> !IsSpace(s[0]) && !IsSpace(s[|s| - 1])
  }

  lemma {:induction false} TrimLeftChars(s: string)
    ensures forall c | c in TrimLeft(s) :: c in s
  {
    if s != "" && IsSpace(s[0]) {
      TrimLeftChars(s[1..]);
    }
  }

  lemma {:induction false} TrimIsTrimmed(s: string)
    ensures Trimmed(Trim(s))
    ensures forall c | c in Trim(s) :: c in s
  {
    TrimLeftChars(s);
  }

  lemma {:induction false} TrimFixes(s: string)
    ensures Trim(s) == s <==> Trimmed(s)
  {
  }

  lemma {:induction false} TrimLeftBlank(a: string, b: string)
    requires AllSpace(a)
    ensures TrimLeft(a + b) == TrimLeft(b)
  {
    if a == "" {
      assert a + b == b;
    } else {
      assert (a + b)[1..] == a[1..] + b;
      TrimLeftBlank(a[1..], b);
    }
  }

  lemma {:induction false} TrimRightBlank(a: string, b: string)
    requires AllSpace(b)
    ensures TrimRight(a + b) == TrimRight(a)
  {
    if b == "" {
      assert a + b == a;
    } else {
      assert (a + b)[..|a + b| - 1] == a + b[..|b| - 1];
      TrimRightBlank(a, b[..|b| - 1]);
    }
  }

  lemma {:induction false} TrimLeftAround(a: string, c: char, b: string)
    requires !IsSpace(c)
    ensures TrimLeft(a + [c] + b) == TrimLeft(a) + [c] + b
  {
    var s := a + [c] + b;
    if a == "" {
      assert s[0] == c;
    } else if IsSpace(a[0]) {
      assert s[1..] == a[1..] + [c] + b;
      TrimLeftAround(a[1..], c, b);
    } else {
      assert s[0] == a[0];
    }
  }

  lemma {:induction false} TrimRightAround(a: string, c: char, b: string)
    requires !IsSpace(c)
    ensures TrimRight(a + [c] + b) == a + [c] + TrimRight(b)
  {
    var s := a + [c] + b;
    if b == "" {
      assert s[|s| - 1] == c;
    } else if IsSpace(b[|b| - 1]) {
      assert s[..|s| - 1] == a + [c] + b[..|b| - 1];
      TrimRightAround(a, c, b[..|b| - 1]);
    } else {
      assert s[|s| - 1] == b[|b| - 1];
    }
  }

  /** Trimming cannot reach past a visible character in the middle. */
  lemma {:induction false} TrimAround(a: string, c: char, b: string)
    requires !IsSpace(c)
    ensures Trim(a + [c] + b) == TrimLeft(a) + [c] + TrimRight(b)
  {
    TrimLeftAround(a, c, b);
    TrimRightAround(TrimLeft(a), c, b);
  }

  lemma {:induction false} TrimRightKeepsFront(s: string)
    requires s != "" && !IsSpace(s[0])
    ensures TrimRight(s) != ""
  {
    if IsSpace(s[|s| - 1]) {
      TrimRightKeepsFront(s[..|s| - 1]);
    }
  }

  lemma {:induction false} TrimBlank(s: string)
    requires AllSpace(s)
    ensures TrimLeft(s) == TrimRight(s) == Trim(s) == ""
  {
    TrimLeftBlank(s, "");
    TrimRightBlank("", s);
    assert "" + s == s && s + "" == s;
  }

  lemma {:induction false} TrimTwice(s: string)
    ensures Trim(TrimLeft(s)) == Trim(s)
    ensures Trim(TrimRight(s)) == Trim(s)
  {
    if AllSpace(s) {
      TrimBlank(s);
    } else {
      var i :| 0 <= i < |s| && !IsSpace(s[i]);
      assert s == s[..i] + [s[i]] + s[i + 1..];
      TrimAround(s[..i], s[i], s[i + 1..]);
      TrimRightAround(s[..i], s[i], s[i + 1..]);
      TrimAround(s[..i], s[i], TrimRight(s[i + 1..]));
    }
  }

  lemma {:induction false} SumsAgree<T>(a: seq<T>, b: seq<T>, c: seq<T>)
    ensures (a + b) + c == a + (b + c)
  {
  }

  lemma {:induction false} TrimLeftParts(s: string) returns (a: string)
    ensures s == a + TrimLeft(s) && AllSpace(a)
  {
    if s != "" && IsSpace(s[0]) {
      var rest := TrimLeftParts(s[1..]);
      a := [s[0]] + rest;
      SumsAgree([s[0]], rest, TrimLeft(s[1..]));
      assert s == [s[0]] + s[1..];
    } else {
      a := "";
    }
  }

  lemma {:induction false} TrimRightParts(s: string) returns (b: string)
    ensures s == TrimRight(s) + b && AllSpace(b)
  {
    if s != "" && IsSpace(s[|s| - 1]) {
      var rest := TrimRightParts(s[..|s| - 1]);
      b := rest + [s[|s| - 1]];
      assert s == s[..|s| - 1] + [s[|s| - 1]];
    } else {
      b := "";
    }
  }

  /** Trimming takes blanks off both ends and nothing else. */
  lemma {:induction false} TrimParts(s: string) returns (a: string, b: string)
    ensures s == a + Trim(s) + b && AllSpace(a) && AllSpace(b) && Trimmed(Trim(s))
  {
    a := TrimLeftParts(s);
    b := TrimRightParts(TrimLeft(s));
    TrimIsTrimmed(s);
  }

  /** What the names of variables are made of. */
  predicate NameChars(s: string) {
    s != "" && forall i | 0 <= i < |s| :: 'A' <= s[i] <= 'Z' || s[i] == '_'
  }

  /** strings.IndexByte and config.indexOf: the first position of c, or -1. */
  function Find(s: string, c: char): (i: int)
    ensures -1 <= i < |s|
    ensures i >= 0 ==> s[i] == c && c !in s[..i]
    ensures i < 0 ==> c !in s
  {
    if s == "" then -1
    else if s[0] == c then 0
    else
      var i := Find(s[1..], c);
      if i < 0 then
        assert s == [s[0]] + s[1..];
        -1
      else
        assert s[..i + 1] == [s[0]] + s[1..][..i];
        i + 1
  }

  lemma {:induction false} FindFirst(a: string, c: char, b: string)
    requires c !in a
    ensures Find(a + [c] + b, c) == |a|
  {
    var s := a + [c] + b;
    assert s[|a|] == c;
    assert forall i | 0 <= i < |a| :: s[i] == a[i];
    assert forall i | |a| < i <= |s| :: c == s[..i][|a|];
  }

  /** strings.Split(s, "\n"). */
  function Lines(s: string): (r: seq<string>)
    ensures r != []
    ensures forall l | l in r :: '\n' !in l
    decreases |s|
  {
    var i := Find(s, '\n');
    if i < 0 then [s] else [s[..i]] + Lines(s[i + 1..])
  }

  /** strings.Join(ls, "\n"). */
  function Join(ls: seq<string>): string {
    if ls == [] then ""
    else if |ls| == 1 then ls[0]
    else ls[0] + "\n" + Join(ls[1..])
  }

  /** Splitting loses nothing. */
  lemma {:induction false} JoinOfLines(s: string)
    ensures Join(Lines(s)) == s
    decreases |s|
  {
    var i := Find(s, '\n');
    if i >= 0 {
      JoinOfLines(s[i + 1..]);
      assert s == s[..i] + "\n" + s[i + 1..];
      assert Lines(s)[1..] == Lines(s[i + 1..]);
    }
  }

  predicate SingleLines(ls: seq<string>) {
    forall l | l in ls :: '\n' !in l
  }

  lemma {:induction false} LinesOfFirst(l: string, rest: string)
    requires '\n' !in l
    ensures Lines(l + "\n" + rest) == [l] + Lines(rest)
  {
    var s := l + "\n" + rest;
    assert s == l + ['\n'] + rest;
    FindFirst(l, '\n', rest);
    assert s[..|l|] == l && s[|l| + 1..] == rest;
  }

  lemma {:induction false} JoinStep(ls: seq<string>)
    requires |ls| > 1
    ensures Join(ls) + "\n" == ls[0] + "\n" + (Join(ls[1..]) + "\n")
  {
  }

  /** Joining loses nothing either, if there is a line at all. */
  lemma {:induction false} LinesOfJoined(ls: seq<string>)
    requires SingleLines(ls) && ls != []
    ensures Lines(Join(ls)) == ls
  {
    assert ls[0] in ls;
    if |ls| == 1 {
      assert Find(ls[0], '\n') < 0 && ls == [ls[0]];
    } else {
      LinesOfFirst(ls[0], Join(ls[1..]));
      LinesOfJoined(ls[1..]);
      assert ls == [ls[0]] + ls[1..];
    }
  }

  lemma {:induction false} LinesOfJoin1(ls: seq<string>)
    requires SingleLines(ls) && ls != []
    ensures Lines(Join(ls) + "\n") == ls + [""]
  {
    if |ls| == 1 {
      LinesOfFirst(ls[0], "");
      assert ls[0] + "\n" + "" == Join(ls) + "\n" && Lines("") == [""];
    } else {
      JoinStep(ls);
      LinesOfFirst(ls[0], Join(ls[1..]) + "\n");
      LinesOfJoin1(ls[1..]);
      assert ls + [""] == [ls[0]] + (ls[1..] + [""]);
    }
  }

  lemma {:induction false} LinesOfJoin(ls: seq<string>)
    requires SingleLines(ls)
    ensures Lines(Join(ls) + "\n") == (if ls == [] then [""] else ls) + [""]
  {
    if ls == [] {
      LinesOfFirst("", "");
      assert Lines("") == [""];
    } else {
      LinesOfJoin1(ls);
    }
  }

  /** The order of sort.Strings: by code point, a proper prefix first. */
  predicate Less(a: string, b: string) {
    && b != ""
    && (a == "" || a[0] < b[0] || (a[0] == b[0] && Less(a[1..], b[1..])))
  }

  lemma {:induction false} LessTransitive(a: string, b: string, c: string)
    requires Less(a, b) && Less(b, c)
    ensures Less(a, c)
  {
    if a != "" && a[0] == b[0] == c[0] {
      LessTransitive(a[1..], b[1..], c[1..]);
    }
  }

  lemma {:induction false} LessIrreflexive(a: string)
    ensures !Less(a, a)
  {
    if a != "" {
      LessIrreflexive(a[1..]);
    }
  }

  lemma {:induction false} LessTotal(a: string, b: string)
    ensures Less(a, b) || Less(b, a) || a == b
  {
    if a != "" && b != "" && a[0] == b[0] {
      LessTotal(a[1..], b[1..]);
      assert a == [a[0]] + a[1..] && b == [b[0]] + b[1..];
    }
  }

  /** A difference at position p decides the order. */
  lemma {:induction false} LessAt(a: string, b: string, p: nat)
    requires p < |a| && p < |b| && a[..p] == b[..p] && a[p] < b[p]
    ensures Less(a, b)
  {
    if p > 0 {
      assert a[0] == a[..p][0] == b[..p][0] == b[0];
      assert a[1..][..p - 1] == a[..p][1..] && b[1..][..p - 1] == b[..p][1..];
      LessAt(a[1..], b[1..], p - 1);
    }
  }

  /** a ends, or has the smaller character, at the first position where the two differ. */
  ghost predicate LessFrom(a: string, b: string, p: nat) {
    p <= |a| && p < |b| && a[..p] == b[..p] && (p == |a| || a[p] < b[p])
  }

  lemma {:induction false} SameStart(a: string, b: string, p: nat)
    requires LessFrom(a, b, p)
    ensures p == 0 || (a != "" && b != "" && a[0] == b[0])
  {
    if p > 0 {
      assert a[..p][0] == b[..p][0];
    }
  }

  lemma {:induction false} LessIff(a: string, b: string)
    ensures Less(a, b) <==> exists p: nat :: LessFrom(a, b, p)
  {
    if a == "" || b == "" || a[0] != b[0] {
      assert b != "" ==> (Less(a, b) <==> LessFrom(a, b, 0));
      forall p: nat | LessFrom(a, b, p) ensures Less(a, b) {
        SameStart(a, b, p);
      }
    } else {
      LessIff(a[1..], b[1..]);
      if p: nat :| LessFrom(a[1..], b[1..], p) {
        assert a == [a[0]] + a[1..] && b == [b[0]] + b[1..];
        assert a[..p + 1] == [a[0]] + a[1..][..p] && b[..p + 1] == [b[0]] + b[1..][..p];
        assert LessFrom(a, b, p + 1);
      }
      forall p: nat | LessFrom(a, b, p) ensures Less(a, b) {
        if p > 0 {
          assert a[1..][..p - 1] == a[..p][1..] && b[1..][..p - 1] == b[..p][1..];
          assert LessFrom(a[1..], b[1..], p - 1);
        }
      }
    }
  }

  predicate Sorted(ls: seq<string>) {
    forall i, j | 0 <= i < j < |ls| :: !Less(ls[j], ls[i])
  }

  function InsertSorted(l: string, ls: seq<string>): (r: seq<string>)
    ensures multiset(r) == multiset(ls) + multiset{l}
  {
    if ls == [] || !Less(ls[0], l) then
      [l] + ls
    else
      assert ls == [ls[0]] + ls[1..];
      [ls[0]] + InsertSorted(l, ls[1..])
  }

  lemma {:induction false} InsertKeepsSorted(l: string, ls: seq<string>)
    requires Sorted(ls)
    ensures Sorted(InsertSorted(l, ls))
  {
    var r := InsertSorted(l, ls);
    if ls == [] {
    } else if !Less(ls[0], l) {
      forall j | 0 <= j < |ls| ensures !Less(ls[j], l) {
        if Less(ls[j], l) && j > 0 {
          LessTotal(l, ls[0]);
          if Less(l, ls[0]) { LessTransitive(ls[j], l, ls[0]); }
        }
      }
    } else {
      InsertKeepsSorted(l, ls[1..]);
      var t := InsertSorted(l, ls[1..]);
      forall j | 0 <= j < |t| ensures !Less(t[j], ls[0]) {
        assert t[j] in multiset(t);
        if t[j] == l {
          if Less(l, ls[0]) { LessTransitive(l, ls[0], l); LessIrreflexive(l); }
        } else {
          assert t[j] in ls[1..];
        }
      }
    }
  }

  /** sort.Strings. */
  function SortStrings(ls: seq<string>): (r: seq<string>)
    ensures multiset(r) == multiset(ls)
  {
    if ls == [] then []
    else
      assert ls == [ls[0]] + ls[1..];
      InsertSorted(ls[0], SortStrings(ls[1..]))
  }

  lemma {:induction false} SortStringsSorts(ls: seq<string>)
    ensures Sorted(SortStrings(ls))
  {
    if ls != [] {
      SortStringsSorts(ls[1..]);
      InsertKeepsSorted(ls[0], SortStrings(ls[1..]));
    }
  }

  lemma {:induction false} TailBag(a: seq<string>)
    requires a != []
    ensures multiset(a[1..]) == multiset(a) - multiset{a[0]}
  {
    assert a == [a[0]] + a[1..];
  }

  lemma {:induction false} SortedHeads(a: seq<string>, b: seq<string>)
    requires Sorted(a) && Sorted(b) && multiset(a) == multiset(b) && a != [] && b != []
    ensures a[0] == b[0]
  {
    assert a[0] in multiset(b) && b[0] in multiset(a);
    var i :| 0 <= i < |b| && b[i] == a[0];
    var j :| 0 <= j < |a| && a[j] == b[0];
    LessTotal(a[0], b[0]);
  }

  /** There is only one way to sort a collection of strings. */
  lemma {:induction false} SortedUnique(a: seq<string>, b: seq<string>)
    requires Sorted(a) && Sorted(b) && multiset(a) == multiset(b)
    ensures a == b
  {
    assert |a| == |multiset(a)| == |multiset(b)| == |b|;
    if a != [] {
      SortedHeads(a, b);
      TailBag(a);
      TailBag(b);
      SortedUnique(a[1..], b[1..]);
      assert a == [a[0]] + a[1..] && b == [b[0]] + b[1..];
    }
  }

  /** The first non-empty value that f has on a line, "" if there is none. */
  function FirstNonEmpty(f: string -> string, lines: seq<string>): string {
    if lines == [] then ""
    else
      var v := FirstNonEmpty(f, lines[..|lines| - 1]);
      if v != "" then v else f(lines[|lines| - 1])
  }

  lemma {:induction false} NoneNonEmpty(f: string -> string, lines: seq<string>)
    ensures FirstNonEmpty(f, lines) == "" <==> forall l | l in lines :: f(l) == ""
  {
    if lines != [] {
      var front, last := lines[..|lines| - 1], lines[|lines| - 1];
      NoneNonEmpty(f, front);
      assert lines == front + [last];
    }
  }

  lemma {:induction false} FirstNonEmptyAt(f: string -> string, lines: seq<string>, j: nat)
    requires j < |lines| && f(lines[j]) != ""
    requires forall i | 0 <= i < j :: f(lines[i]) == ""
    ensures FirstNonEmpty(f, lines) == f(lines[j])
  {
    var front := lines[..|lines| - 1];
    if j < |front| {
      FirstNonEmptyAt(f, front, j);
    } else {
      NoneNonEmpty(f, front);
    }
  }

  lemma {:induction false} FirstNonEmptyWitness(f: string -> string, lines: seq<string>) returns (j: nat)
    requires FirstNonEmpty(f, lines) != ""
    ensures j < |lines| && f(lines[j]) == FirstNonEmpty(f, lines)
    ensures forall i | 0 <= i < j :: f(lines[i]) == ""
  {
    var front := lines[..|lines| - 1];
    NoneNonEmpty(f, front);
    if FirstNonEmpty(f, front) != "" {
      j := FirstNonEmptyWitness(f, front);
    } else {
      j := |front|;
    }
  }

  lemma {:induction false} FirstNonEmptyOfOne(f: string -> string, l: string)
    ensures FirstNonEmpty(f, [l]) == f(l)
  {
    assert [l][..0] == [] && FirstNonEmpty(f, []) == "";
  }

  lemma {:induction false} FirstNonEmptyOfSum(f: string -> string, a: seq<string>, b: seq<string>)
    ensures FirstNonEmpty(f, a + b) == if FirstNonEmpty(f, a) != "" then FirstNonEmpty(f, a) else FirstNonEmpty(f, b)
  {
    if b == [] {
      assert a + b == a;
    } else {
      FirstNonEmptyOfSum(f, a, b[..|b| - 1]);
      assert (a + b)[..|a + b| - 1] == a + b[..|b| - 1];
    }
  }

  function Map(f: string -> string, s: seq<string>): (r: seq<string>)
    ensures |r| == |s|
    ensures forall i | 0 <= i < |s| :: r[i] == f(s[i])
  {
    seq(|s|, i requires 0 <= i < |s| => f(s[i]))
  }

  lemma {:induction false} BagRemove(s: seq<string>, j: nat)
    requires j < |s|
    ensures multiset(s) == multiset(s[..j] + s[j + 1..]) + multiset{s[j]}
    ensures multiset(s[..j] + s[j + 1..]) == multiset(s) - multiset{s[j]}
  {
    assert s == s[..j] + [s[j]] + s[j + 1..];
  }

  lemma {:induction false} MapRemove(f: string -> string, s: seq<string>, j: nat)
    requires j < |s|
    ensures multiset(Map(f, s)) == multiset(Map(f, s[..j] + s[j + 1..])) + multiset{f(s[j])}
  {
    assert Map(f, s[..j] + s[j + 1..]) == Map(f, s)[..j] + Map(f, s)[j + 1..];
    BagRemove(Map(f, s), j);
  }

  lemma {:induction false} BagsWithoutOne(a: seq<string>, b: seq<string>, j: nat)
    requires multiset(a) == multiset(b) && a != [] && j < |b| && b[j] == a[0]
    ensures multiset(a[1..]) == multiset(b[..j] + b[j + 1..])
  {
    TailBag(a);
    BagRemove(b, j);
  }

  lemma {:induction false} MapFirst(f: string -> string, a: seq<string>)
    requires a != []
    ensures multiset(Map(f, a)) == multiset(Map(f, a[1..])) + multiset{f(a[0])}
  {
    assert Map(f, a) == [f(a[0])] + Map(f, a[1..]);
  }

  lemma {:induction false} FirstIsInBoth(a: seq<string>, b: seq<string>) returns (j: nat)
    requires multiset(a) == multiset(b) && a != []
    ensures j < |b| && b[j] == a[0]
  {
    assert a[0] in multiset(a);
    j :| j < |b| && b[j] == a[0];
  }

  lemma {:induction false} MapPermuted(f: string -> string, a: seq<string>, b: seq<string>)
    requires multiset(a) == multiset(b)
    ensures multiset(Map(f, a)) == multiset(Map(f, b))
  {
    if a == [] {
      assert |b| == |multiset(b)| == |multiset(a)| == 0;
    } else {
      var j := FirstIsInBoth(a, b);
      BagsWithoutOne(a, b, j);
      MapPermuted(f, a[1..], b[..j] + b[j + 1..]);
      MapFirst(f, a);
      MapRemove(f, b, j);
    }
  }
}
