/** The three readers and two writers of the `.env` file, and how they fit together.
    A missing file reads like an empty one, so the file is a plain string. */
module EnvFile {
  import opened Text

  datatype Binding = Binding(key: string, val: string)

  type Env = map<string, string>

  const BOM: char := '\U{FEFF}'

  function Getenv(env: Env, k: string): string {
    if k in env then env[k] else ""
  }

  predicate SetenvAccepts(k: string, v: string) {
    k != "" && '=' !in k && '\0' !in k && '\0' !in v
  }

  /** os.Setenv, whose error the loader ignores. */
  function Setenv(env: Env, k: string, v: string): Env {
    if SetenvAccepts(k, v) then env[k := v] else env
  }

  // ---------------------------------------------------------------- readers

  function Unquote(v: string): string {
    if |v| >= 2 && (v[0] == '"' || v[0] == '\'') && v[|v| - 1] == v[0] then v[1..|v| - 1] else v
  }

  /** A line as loadEnvFile sees it. */
  function LoadLine(raw: string): Option<Binding> {
    var line := Trim(raw);
    if line == "" || line[0] == '#' then None
    else
      var idx := Find(line, '=');
      if idx > 0 then Some(Binding(Trim(line[..idx]), Unquote(Trim(line[idx + 1..])))) else None
  }

  /** A line as appendEnvKey sees it: comments are not skipped, quotes are kept. */
  function AppendLine(raw: string): Option<Binding> {
    var line := Trim(raw);
    if line == "" then None
    else
      var idx := Find(line, '=');
      if idx > 0 then Some(Binding(Trim(line[..idx]), line[idx + 1..])) else None
  }

  function StripBOM(s: string): string {
    if s != "" && s[0] == BOM then s[1..] else s
  }

  /** A line as SyncEnvFile sees it: nothing is trimmed, a byte order mark is dropped. */
  function SyncLine(raw: string): Option<Binding> {
    var line := StripBOM(raw);
    var idx := Find(line, '=');
    if idx > 0 then Some(Binding(line[..idx], line[idx + 1..])) else None
  }

  /** The map a rewriting reader builds: later lines win. */
  function ReadMap(reader: string -> Option<Binding>, lines: seq<string>): Env {
    if lines == [] then map[]
    else
      var m := ReadMap(reader, lines[..|lines| - 1]);
      match reader(lines[|lines| - 1])
      case None => m
      case Some(b) => m[b.key := b.val]
  }

  function AppendView(text: string): Env {
    ReadMap(AppendLine, Lines(text))
  }

  function SyncView(text: string): Env {
    ReadMap(SyncLine, Lines(text))
  }

  function LoadStep(env: Env, raw: string): Env {
    match LoadLine(raw)
    case None => env
    case Some(b) => if Getenv(env, b.key) == "" then Setenv(env, b.key, b.val) else env
  }

  /** The environment after loadEnvFile: the outside wins, then earlier lines. */
  function Load(lines: seq<string>, env: Env): Env {
    if lines == [] then env
    else LoadStep(Load(lines[..|lines| - 1], env), lines[|lines| - 1])
  }

  // ---------------------------------------------------------------- writer

  function Line(k: string, v: string): string {
    k + "=" + v
  }

  /** One order in which Go may iterate over a map. */
  ghost predicate Enumerates(keys: seq<string>, m: Env) {
    && (forall i, j | 0 <= i < j < |keys| :: keys[i] != keys[j])
    && (forall k :: k in keys <==> k in m)
  }

  function LinesInOrder(keys: seq<string>, m: Env): (r: seq<string>)
    requires forall k | k in keys :: k in m
    ensures |r| == |keys|
    ensures forall i | 0 <= i < |keys| :: r[i] == Line(keys[i], m[keys[i]])
  {
    seq(|keys|, i requires 0 <= i < |keys| => Line(keys[i], m[keys[i]]))
  }

  /** What both rewriters write when the map is iterated in the order `keys`. */
  function WrittenInOrder(keys: seq<string>, m: Env): string
    requires forall k | k in keys :: k in m
  {
    Join(SortStrings(LinesInOrder(keys, m))) + "\n"
  }

  ghost function AnyOrder(m: Env): (keys: seq<string>)
    ensures Enumerates(keys, m)
  {
    if m == map[] then []
    else
      var k :| k in m;
      [k] + AnyOrder(m - {k})
  }

  ghost function Written(m: Env): string {
    WrittenInOrder(AnyOrder(m), m)
  }

  ghost function Append(text: string, k: string, v: string): string {
    Written(AppendView(text)[k := v])
  }

  ghost function Sync(text: string, managed: Env): string {
    Written(SyncView(text) + managed)
  }

  // ---------------------------------------------------------------- the writer does not depend on map order

  lemma {:induction false} NoDuplicates(a: seq<string>, k: string)
    requires forall i, j | 0 <= i < j < |a| :: a[i] != a[j]
    ensures multiset(a)[k] == if k in a then 1 else 0
  {
    if a != [] {
      assert a == [a[0]] + a[1..];
      NoDuplicates(a[1..], k);
    }
  }

  lemma {:induction false} EnumerationsAgree(a: seq<string>, b: seq<string>, m: Env)
    requires Enumerates(a, m) && Enumerates(b, m)
    ensures multiset(LinesInOrder(a, m)) == multiset(LinesInOrder(b, m))
  {
    forall k ensures multiset(a)[k] == multiset(b)[k] {
      NoDuplicates(a, k);
      NoDuplicates(b, k);
    }
    var f := k => Line(k, Getenv(m, k));
    MapPermuted(f, a, b);
    LinesAreMapped(f, a, m);
    LinesAreMapped(f, b, m);
  }

  lemma {:induction false} LinesAreMapped(f: string -> string, keys: seq<string>, m: Env)
    requires (forall k | k in keys :: k in m) && forall k | k in keys :: f(k) == Line(k, m[k])
    ensures LinesInOrder(keys, m) == Map(f, keys)
  {
  }

  /** Go's random map order never shows in the file. */
  lemma {:induction false} WriterIsCanonical(a: seq<string>, b: seq<string>, m: Env)
    requires Enumerates(a, m) && Enumerates(b, m)
    ensures WrittenInOrder(a, m) == WrittenInOrder(b, m)
    ensures Sorted(SortStrings(LinesInOrder(a, m)))
  {
    var la, lb := LinesInOrder(a, m), LinesInOrder(b, m);
    EnumerationsAgree(a, b, m);
    SortStringsSorts(la);
    SortStringsSorts(lb);
    SortedUnique(SortStrings(la), SortStrings(lb));
  }

  lemma {:induction false} DistinctLines(keys: seq<string>, m: Env)
    requires Enumerates(keys, m) && forall k | k in m :: '=' !in k
    ensures forall i, j | 0 <= i < j < |keys| :: LinesInOrder(keys, m)[i] != LinesInOrder(keys, m)[j]
  {
    forall i, j | 0 <= i < j < |keys| ensures LinesInOrder(keys, m)[i] != LinesInOrder(keys, m)[j] {
      assert keys[i] in keys && keys[j] in keys;
      LineHasOneKey(keys[i], m[keys[i]], keys[j], m[keys[j]]);
    }
  }

  lemma {:induction false} LineHasOneKey(k: string, v: string, k': string, v': string)
    requires '=' !in k && '=' !in k'
    ensures Line(k, v) == Line(k', v') ==> k == k' && v == v'
  {
    FindFirst(k, '=', v);
    FindFirst(k', '=', v');
    assert Line(k, v) == k + ['='] + v && Line(k', v') == k' + ['='] + v';
    assert Line(k, v)[..|k|] == k && Line(k', v')[..|k'|] == k';
    assert Line(k, v)[|k| + 1..] == v && Line(k', v')[|k'| + 1..] == v';
  }

  /** A rewriter writes no line twice. */
  lemma {:induction false} WrittenOnce(m: Env, l: string)
    requires SingleLineMap(m) && (forall k | k in m :: '=' !in k) && l != ""
    ensures multiset(Lines(Written(m)))[l] <= 1
  {
    var keys := AnyOrder(m);
    var raw := LinesInOrder(keys, m);
    DistinctLines(keys, m);
    NoDuplicates(raw, l);
    SplitWritten(m);
    EmptyLinesAside(SortStrings(raw), l);
  }

  lemma {:induction false} EmptyLinesAside(ls: seq<string>, l: string)
    requires l != ""
    ensures multiset((if ls == [] then [""] else ls) + [""])[l] == multiset(ls)[l]
  {
    assert multiset(ls + [""]) == multiset(ls) + multiset{""};
  }

  // ---------------------------------------------------------------- readers, by the parts of a line

  lemma {:induction false} NoEqualsNoBinding(raw: string)
    requires '=' !in raw
    ensures LoadLine(raw) == AppendLine(raw) == SyncLine(raw) == None
  {
    TrimIsTrimmed(raw);
  }

  /** Every line that binds anything is a + "=" + b with no '=' in a. */
  lemma {:induction false} SplitAtEquals(raw: string) returns (a: string, b: string)
    requires '=' in raw
    ensures raw == Line(a, b) && '=' !in a
    ensures forall c | c in a || c in b :: c in raw
  {
    var i := Find(raw, '=');
    a, b := raw[..i], raw[i + 1..];
    assert raw == a + [raw[i]] + b;
  }

  lemma {:induction false} LoadLineParts(a: string, b: string)
    requires '=' !in a
    ensures LoadLine(Line(a, b)) ==
            if TrimLeft(a) == "" || TrimLeft(a)[0] == '#' then None
            else Some(Binding(Trim(a), Unquote(Trim(b))))
  {
    TrimAround(a, '=', b);
    TrimLeftChars(a);
    FindFirst(TrimLeft(a), '=', TrimRight(b));
    assert Line(a, b) == a + ['='] + b;
    var line := TrimLeft(a) + ['='] + TrimRight(b);
    assert line[..|TrimLeft(a)|] == TrimLeft(a) && line[|TrimLeft(a)| + 1..] == TrimRight(b);
    TrimTwice(a);
    TrimTwice(b);
  }

  lemma {:induction false} AppendLineParts(a: string, b: string)
    requires '=' !in a
    ensures AppendLine(Line(a, b)) ==
            if TrimLeft(a) == "" then None else Some(Binding(Trim(a), TrimRight(b)))
  {
    TrimAround(a, '=', b);
    TrimLeftChars(a);
    FindFirst(TrimLeft(a), '=', TrimRight(b));
    assert Line(a, b) == a + ['='] + b;
    var line := TrimLeft(a) + ['='] + TrimRight(b);
    assert line[..|TrimLeft(a)|] == TrimLeft(a) && line[|TrimLeft(a)| + 1..] == TrimRight(b);
    TrimTwice(a);
  }

  lemma {:induction false} SyncLineParts(a: string, b: string)
    requires '=' !in a
    ensures SyncLine(Line(a, b)) == if StripBOM(a) == "" then None else Some(Binding(StripBOM(a), b))
    ensures StripBOM(a) == if [BOM] <= a then a[1..] else a
  {
    var a' := StripBOM(a);
    assert StripBOM(Line(a, b)) == a' + ['='] + b;
    FindFirst(a', '=', b);
    var line := a' + ['='] + b;
    assert line[..|a'|] == a' && line[|a'| + 1..] == b;
  }

  /** Stripping takes off two equal quote characters, one at each end, or nothing. */
  lemma {:induction false} UnquoteParts(v: string)
    ensures if |v| >= 2 && v[0] == v[|v| - 1] && (v[0] == '"' || v[0] == '\'')
            then v == [v[0]] + Unquote(v) + [v[0]] else Unquote(v) == v
  {
  }

  // ---------------------------------------------------------------- reading a map back

  lemma {:induction false} ReadSound(reader: string -> Option<Binding>, lines: seq<string>, k: string)
    requires k in ReadMap(reader, lines)
    ensures exists l | l in lines :: reader(l) == Some(Binding(k, ReadMap(reader, lines)[k]))
  {
    var front, last := lines[..|lines| - 1], lines[|lines| - 1];
    if reader(last).None? || reader(last).value.key != k {
      ReadSound(reader, front, k);
      var l :| l in front && reader(l) == Some(Binding(k, ReadMap(reader, front)[k]));
      assert l in lines;
    } else {
      assert last in lines;
    }
  }

  lemma {:induction false} ReadComplete(reader: string -> Option<Binding>, lines: seq<string>, l: string)
    requires l in lines && reader(l).Some?
    ensures reader(l).value.key in ReadMap(reader, lines)
  {
    var front, last := lines[..|lines| - 1], lines[|lines| - 1];
    assert lines == front + [last];
    if l != last {
      ReadComplete(reader, front, l);
    }
  }

  lemma {:induction false} OneMoreLine(reader: string -> Option<Binding>, lines: seq<string>, l: string)
    ensures ReadMap(reader, lines + [l]) ==
            match reader(l)
            case None => ReadMap(reader, lines)
            case Some(b) => ReadMap(reader, lines)[b.key := b.val]
  {
    assert (lines + [l])[..|lines|] == lines;
  }

  /** The last line that binds a key decides its value. */
  lemma {:induction false} LastBindingWins(reader: string -> Option<Binding>, lines: seq<string>, j: nat, b: Binding)
    requires j < |lines| && reader(lines[j]) == Some(b)
    requires forall i | j < i < |lines| && reader(lines[i]).Some? :: reader(lines[i]).value.key != b.key
    ensures b.key in ReadMap(reader, lines) && ReadMap(reader, lines)[b.key] == b.val
  {
    if j < |lines| - 1 {
      LastBindingWins(reader, lines[..|lines| - 1], j, b);
    }
  }

  lemma {:induction false} InLinesInOrder(keys: seq<string>, m: Env, l: string)
    requires Enumerates(keys, m)
    ensures l in LinesInOrder(keys, m) <==> exists k | k in m :: l == Line(k, m[k])
  {
  }

  lemma {:induction false} InSortedLines(m: Env, l: string)
    ensures l in SortStrings(LinesInOrder(AnyOrder(m), m)) <==> exists k | k in m :: l == Line(k, m[k])
  {
    var raw := LinesInOrder(AnyOrder(m), m);
    assert l in SortStrings(raw) <==> l in multiset(SortStrings(raw));
    assert l in raw <==> l in multiset(raw);
    InLinesInOrder(AnyOrder(m), m, l);
  }

  ghost predicate SingleLineMap(m: Env) {
    forall k | k in m :: '\n' !in k && '\n' !in m[k]
  }

  lemma {:induction false} SplitWritten(m: Env)
    requires SingleLineMap(m)
    ensures var ls := SortStrings(LinesInOrder(AnyOrder(m), m));
            Lines(Written(m)) == (if ls == [] then [""] else ls) + [""]
  {
    var ls := SortStrings(LinesInOrder(AnyOrder(m), m));
    forall l | l in ls ensures '\n' !in l {
      InSortedLines(m, l);
    }
    LinesOfJoin(ls);
  }

  /** The lines of a rewritten file are the map's entries and blanks. */
  lemma {:induction false} WrittenLines(m: Env, l: string)
    requires SingleLineMap(m)
    ensures l in Lines(Written(m)) <==> l == "" || exists k | k in m :: l == Line(k, m[k])
  {
    SplitWritten(m);
    InSortedLines(m, l);
  }

  /** A reader that turns every entry of m into one of n reads n from m's file. */
  lemma {:induction false} ReadBack(reader: string -> Option<Binding>, m: Env, n: Env)
    requires SingleLineMap(m) && m.Keys == n.Keys
    requires reader("") == None
    requires forall k | k in m :: reader(Line(k, m[k])) == Some(Binding(k, n[k]))
    ensures ReadMap(reader, Lines(Written(m))) == n
  {
    var lines := Lines(Written(m));
    var r := ReadMap(reader, lines);
    forall k | k in r ensures k in n && r[k] == n[k] {
      ReadSound(reader, lines, k);
      var l :| l in lines && reader(l) == Some(Binding(k, r[k]));
      WrittenLines(m, l);
    }
    forall k | k in n ensures k in r {
      WrittenLines(m, Line(k, m[k]));
      ReadComplete(reader, lines, Line(k, m[k]));
    }
  }
}
