/** The generated secrets over whole runs of restarts, settings saves and JWT rotations. */
module Secrets {
  import opened Text
  import opened EnvFile
  import opened EnvRoundTrip
  import opened EnvShadow

  const VM_SECRET := "KVM_VM_CREDENTIAL_SECRET"
  const SECURITY_SECRET := "KVM_SECURITY_SECRET"
  const LEGACY_SECRET := "KVM_LEGACY_SECURITY_SECRET"
  const JWT_SECRET := "KVM_JWT_SECRET"
  const DEFAULT_JWT_SECRET := "kvm-console-secret-key-change-me"

  function GetEnvOr(env: Env, k: string, default: string): string {
    if Getenv(env, k) != "" then Getenv(env, k) else default
  }

  // ---------------------------------------------------------------- one start of the program

  /** The running process and the file it shares with the next one. */
  datatype State = State(file: string, vm: string, security: string, legacy: string, jwt: string)

  /** The file when a start has dealt with the VM secret. */
  ghost function AfterVm(file: string, vm: string, newVm: string): string {
    if vm == "" then Append(file, VM_SECRET, newVm) else file
  }

  /** The part of Init after the environment is loaded: generate what is missing, append it. */
  ghost function StartIn(file: string, env: Env, newVm: string, newSecurity: string): State {
    var jwt := GetEnvOr(env, JWT_SECRET, DEFAULT_JWT_SECRET);
    var vm := Getenv(env, VM_SECRET);
    var file1 := AfterVm(file, vm, newVm);
    var vm1 := if vm == "" then newVm else vm;
    if Getenv(env, SECURITY_SECRET) == "" then
      State(Append(Append(file1, SECURITY_SECRET, newSecurity), LEGACY_SECRET, jwt), vm1, newSecurity, jwt, jwt)
    else
      State(file1, vm1, Getenv(env, SECURITY_SECRET), Getenv(env, LEGACY_SECRET), jwt)
  }

  ghost function Start(file: string, outside: Env, newVm: string, newSecurity: string): State {
    StartIn(file, Load(Lines(file), outside), newVm, newSecurity)
  }

  predicate HasPrefix(s: string, p: string) {
    p <= s
  }

  predicate IsJwtLine(l: string) {
    HasPrefix(Trim(l), JWT_SECRET + "=")
  }

  /** Replace the first JWT line, or add one at the end. */
  function SetJwtLine(lines: seq<string>, secret: string): seq<string> {
    if lines == [] then [JWT_SECRET + "=" + secret]
    else if IsJwtLine(lines[0]) then [JWT_SECRET + "=" + secret] + lines[1..]
    else [lines[0]] + SetJwtLine(lines[1..], secret)
  }

  function DropBlank(lines: seq<string>): seq<string> {
    if lines == [] then []
    else (if Trim(lines[0]) != "" then [lines[0]] else []) + DropBlank(lines[1..])
  }

  /** writeJWTSecretToEnv. */
  function WriteJwt(file: string, secret: string): string {
    Join(DropBlank(SetJwtLine(Lines(file), secret))) + "\n"
  }

  datatype Event =
    | Restart(outside: Env, newVm: string, newSecurity: string)
    | Save(managed: Env)
    | RotateJwt(secret: string)

  ghost function Step(s: State, e: Event): State {
    match e
    case Restart(outside, newVm, newSecurity) => Start(s.file, outside, newVm, newSecurity)
    case Save(managed) => s.(file := Sync(s.file, managed))
    case RotateJwt(secret) => s.(file := WriteJwt(s.file, secret), jwt := secret)
  }

  ghost function Run(s: State, es: seq<Event>): State {
    if es == [] then s else Step(Run(s, es[..|es| - 1]), es[|es| - 1])
  }

  predicate IsSecretName(k: string) {
    k == VM_SECRET || k == SECURITY_SECRET || k == LEGACY_SECRET
  }

  predicate Generated(v: string) {
    v != "" && PlainValue(v)
  }

  /** The environment passes in nothing for k, or v itself. */
  predicate Agrees(outside: Env, k: string, v: string) {
    Getenv(outside, k) == "" || Getenv(outside, k) == v
  }

  /** The environment passes in no secret but the ones of s, as a service does whose environment is
      filled from the very file that the program reads. */
  predicate AgreesWith(outside: Env, s: State) {
    && Agrees(outside, VM_SECRET, s.vm)
    && Agrees(outside, SECURITY_SECRET, s.security)
    && Agrees(outside, LEGACY_SECRET, s.legacy)
  }

  /** Settings have one-line values under their own names; a restart may have any environment. */
  ghost predicate Harmless(e: Event) {
    match e
    case Restart(_, _, _) => true
    case Save(managed) => PlainMap(managed) && forall k | k in managed :: !IsSecretName(k)
    case RotateJwt(secret) => '\n' !in secret
  }

  /** Harmless, and a restart passes in no other secrets than those of s. */
  ghost predicate Admissible(s: State, e: Event) {
    Harmless(e) && (e.Restart? ==> AgreesWith(e.outside, s))
  }

  // ---------------------------------------------------------------- lines that belong to a name

  function StripFront(s: string): string {
    if s != "" && (IsSpace(s[0]) || s[0] == BOM) then StripFront(s[1..]) else s
  }

  /** What is left of a key once every reader has taken off blanks and byte order marks. */
  function Core(k: string): string {
    TrimRight(StripFront(k))
  }

  function KeyPart(l: string): string
    requires '=' in l
  {
    l[..Find(l, '=')]
  }

  predicate Touches(l: string, k: string) {
    '=' in l && Core(KeyPart(l)) == k
  }

  /** Every line of the file that is about k is a=w, where a is k, perhaps with blanks around it;
      there is such a line unless w is empty. */
  ghost predicate HeldAs(file: string, k: string, a: string, w: string) {
    && Trim(a) == k && '=' !in a && '\n' !in w && (w == "" || Line(a, w) in Lines(file))
    && forall l | l in Lines(file) && Touches(l, k) :: l == Line(a, w)
  }

  /** The same for some spelling a and some text w, with or without quotes and blanks, that the loader
      reads as v. */
  ghost predicate Held(file: string, k: string, v: string) {
    exists a, w :: HeldAs(file, k, a, w) && Loaded(w) == v
  }

  lemma {:induction false} CoreOfPlain(k: string)
    requires PlainKey(k)
    ensures Core(k) == k
  {
  }

  lemma {:induction false} CoreOfSpelling(a: string, k: string)
    requires PlainKey(k) && Trim(a) == k
    ensures Core(a) == k
  {
    CoreIgnoresTrim(a);
    CoreIgnoresTrim(TrimLeft(a));
    CoreOfPlain(k);
  }

  lemma {:induction false} CoreIgnoresTrim(k: string)
    ensures Core(TrimLeft(k)) == Core(k)
    ensures Core(TrimRight(k)) == Core(k)
    ensures Core(StripBOM(k)) == Core(k)
  {
    CoreIgnoresTrimLeft(k);
    if AllSpace(k) {
      TrimBlank(k);
      StripBlank(k);
    } else {
      CoreIgnoresTrimRight(k);
    }
  }

  lemma {:induction false} StripBlank(k: string)
    requires AllSpace(k)
    ensures StripFront(k) == ""
  {
    if k != "" { StripBlank(k[1..]); }
  }

  lemma {:induction false} CoreIgnoresTrimLeft(k: string)
    ensures Core(TrimLeft(k)) == Core(k)
  {
    if k != "" && IsSpace(k[0]) { CoreIgnoresTrimLeft(k[1..]); }
  }

  lemma {:induction false} CoreIgnoresTrimRight(k: string)
    ensures Core(TrimRight(k)) == Core(k)
  {
    if k != "" && IsSpace(k[|k| - 1]) {
      var k' := k[..|k| - 1];
      CoreIgnoresTrimRight(k');
      assert k == k' + [k[|k| - 1]];
      CoreIgnoresBlankEnd(k', k[|k| - 1]);
    }
  }

  lemma {:induction false} CoreIgnoresBlankEnd(k: string, c: char)
    requires IsSpace(c)
    ensures Core(k + [c]) == Core(k)
  {
    if k == "" {
      assert (k + [c])[1..] == "";
    } else if IsSpace(k[0]) || k[0] == BOM {
      assert (k + [c])[1..] == k[1..] + [c];
      CoreIgnoresBlankEnd(k[1..], c);
    } else {
      assert (k + [c])[..|k|] == k;
    }
  }

  /** A reader that renames keys only by taking off blanks and marks. */
  ghost predicate KeepsCore(reader: string -> Option<Binding>) {
    && reader("") == None
    && forall l | reader(l).Some? :: Touches(l, Core(reader(l).value.key))
  }

  lemma {:induction false} KeyPartOfLine(a: string, b: string)
    requires '=' !in a
    ensures '=' in Line(a, b) && KeyPart(Line(a, b)) == a
  {
    assert Line(a, b) == a + ['='] + b;
    FindFirst(a, '=', b);
    assert Line(a, b)[|a|] == '=';
  }

  lemma {:induction false} ReadersKeepCore()
    ensures KeepsCore(AppendLine) && KeepsCore(SyncLine)
  {
    NoEqualsNoBinding("");
    forall l ensures AppendLine(l).Some? ==> Touches(l, Core(AppendLine(l).value.key))
             ensures SyncLine(l).Some? ==> Touches(l, Core(SyncLine(l).value.key))
    {
      ReadersKeepCoreOf(l);
    }
  }

  lemma {:induction false} ReadersKeepCoreOf(l: string)
    ensures AppendLine(l).Some? ==> Touches(l, Core(AppendLine(l).value.key))
    ensures SyncLine(l).Some? ==> Touches(l, Core(SyncLine(l).value.key))
  {
    if '=' in l {
      var a, b := SplitAtEquals(l);
      KeyPartOfLine(a, b);
      AppendLineParts(a, b);
      SyncLineParts(a, b);
      CoreIgnoresTrim(a);
      CoreIgnoresTrim(TrimLeft(a));
    } else {
      NoEqualsNoBinding(l);
    }
  }

  /** Only a line about k can offer the loader a value for k. */
  lemma {:induction false} OfferTouches(l: string, k: string)
    requires PlainKey(k) && Offer(l, k) != ""
    ensures Touches(l, k)
  {
    if '=' in l {
      var a, b := SplitAtEquals(l);
      KeyPartOfLine(a, b);
      OfferParts(a, b, k);
      CoreIgnoresTrim(a);
      CoreIgnoresTrim(TrimLeft(a));
      CoreOfPlain(k);
    } else {
      NoEqualsNoBinding(l);
    }
  }

  // ---------------------------------------------------------------- a held name is loaded and kept

  lemma {:induction false} HeldOffer(file: string, k: string, v: string)
    requires PlainKey(k) && Held(file, k, v)
    ensures FirstOffer(Lines(file), k) == v
  {
    var lines := Lines(file);
    var a, w :| HeldAs(file, k, a, w) && Loaded(w) == v;
    OfferParts(a, w, k);
    forall l | l in lines && Offer(l, k) != "" ensures Offer(l, k) == v {
      OfferTouches(l, k);
    }
    NoOffer(lines, k);
    if w != "" {
      OneOffer(lines, k, Line(a, w), v);
    }
  }

  /** What the next start has for a held name: the text passed in from outside, or else the held one. */
  lemma {:induction false} HeldLoads(file: string, k: string, v: string, outside: Env)
    requires PlainKey(k) && Held(file, k, v)
    ensures Getenv(Load(Lines(file), outside), k) == GetEnvOr(outside, k, v)
    ensures Getenv(Load(Lines(file), outside), k) == v <==> Agrees(outside, k, v)
  {
    HeldOffer(file, k, v);
    LoadGet(Lines(file), outside, k);
  }

  /** A file holds a name with one value. */
  lemma {:induction false} HeldIsUnique(file: string, k: string, v: string, v': string)
    requires PlainKey(k) && Held(file, k, v) && Held(file, k, v')
    ensures v == v'
  {
    HeldOffer(file, k, v);
    HeldOffer(file, k, v');
  }

  lemma {:induction false} TouchedEntry(reader: string -> Option<Binding>, file: string, k: string, a: string,
                                        w: string, x: string)
    requires KeepsCore(reader) && HeldAs(file, k, a, w)
    requires x in ReadMap(reader, Lines(file)) && Core(x) == k
    ensures reader(Line(a, w)) == Some(Binding(x, ReadMap(reader, Lines(file))[x]))
  {
    var lines := Lines(file);
    ReadSound(reader, lines, x);
    var l :| l in lines && reader(l) == Some(Binding(x, ReadMap(reader, lines)[x]));
    assert Touches(l, k);
  }

  /** A reader that takes the line a=w of k for b=r, and an update that names k only if b is k. */
  ghost predicate Rewrites(reader: string -> Option<Binding>, file: string, update: Env, k: string,
                           a: string, w: string, b: string, r: string) {
    && KeepsCore(reader) && HeldAs(file, k, a, w)
    && reader(Line(a, w)) == Some(Binding(b, r)) && (w == "" ==> r == "") && '\n' !in r
    && Trim(b) == k && '=' !in b
    && PlainMap(update) && (k in update ==> b == k)
    && SingleLineMap(ReadMap(reader, Lines(file)))
    && (forall x | x in ReadMap(reader, Lines(file)) :: '=' !in x)
  }

  /** Both rewriters keep a held name that they are not asked to change, as their reader sees its line,
      and set one that they are asked to change. */
  lemma {:induction false} RewriteHolds(reader: string -> Option<Binding>, file: string, update: Env, k: string,
                                        a: string, w: string, b: string, r: string, w': string)
    requires PlainKey(k) && Rewrites(reader, file, update, k, a, w, b, r)
    requires w' == if k in update then update[k] else r
    ensures HeldAs(Written(ReadMap(reader, Lines(file)) + update), k, b, w')
  {
    var view := ReadMap(reader, Lines(file));
    var m := view + update;
    CoreOfSpelling(b, k);
    if k !in update && w != "" {
      ReadComplete(reader, Lines(file), Line(a, w));
      TouchedEntry(reader, file, k, a, w, b);
      if b in update { TrimFixes(b); }
    }
    if w' != "" {
      WrittenLines(m, Line(b, w'));
    }
    forall l | l in Lines(Written(m)) && Touches(l, k) ensures l == Line(b, w') {
      RewrittenLine(reader, file, update, k, a, w, b, r, l);
    }
  }

  lemma {:induction false} RewrittenLine(reader: string -> Option<Binding>, file: string, update: Env, k: string,
                                         a: string, w: string, b: string, r: string, l: string)
    requires PlainKey(k) && Rewrites(reader, file, update, k, a, w, b, r)
    requires l in Lines(Written(ReadMap(reader, Lines(file)) + update)) && Touches(l, k)
    ensures l == Line(b, if k in update then update[k] else r)
  {
    var m := ReadMap(reader, Lines(file)) + update;
    WrittenLines(m, l);
    var x :| x in m && l == Line(x, m[x]);
    KeyPartOfLine(x, m[x]);
    if x in update {
      CoreOfPlain(x);
    } else {
      TouchedEntry(reader, file, k, a, w, x);
    }
  }

  lemma {:induction false} AppendViewIsWritable(file: string)
    ensures SingleLineMap(AppendView(file)) && forall x | x in AppendView(file) :: '=' !in x
  {
    forall x | x in AppendView(file) ensures '\n' !in x && '\n' !in AppendView(file)[x] && '=' !in x {
      AppendViewIsClean(file, x);
    }
  }

  lemma {:induction false} SyncViewIsWritable(file: string)
    ensures SingleLineMap(SyncView(file)) && forall x | x in SyncView(file) :: '=' !in x
  {
    forall x | x in SyncView(file) ensures '\n' !in x && '\n' !in SyncView(file)[x] && '=' !in x {
      SyncViewIsClean(file, x);
    }
  }

  lemma {:induction false} TrimRightKeeps(w: string)
    requires '\n' !in w
    ensures '\n' !in TrimRight(w) && Loaded(TrimRight(w)) == Loaded(w) && (w == "" ==> TrimRight(w) == "")
  {
    TrimTwice(w);
  }

  /** A spelling of a plain name starts with no byte order mark, so the settings writer keeps it. */
  lemma {:induction false} SpellingHasNoMark(a: string, k: string)
    requires PlainKey(k) && Trim(a) == k
    ensures a != "" && a[0] != BOM
  {
    if a != "" && !IsSpace(a[0]) {
      assert TrimRight(a) == k <= a;
    }
  }

  lemma {:induction false} SyncHolds(file: string, managed: Env, k: string, v: string)
    requires PlainKey(k) && Held(file, k, v) && PlainMap(managed) && k !in managed
    ensures Held(Sync(file, managed), k, v)
  {
    var a, w :| HeldAs(file, k, a, w) && Loaded(w) == v;
    SyncHoldsAs(file, managed, k, a, w);
  }

  lemma {:induction false} SyncHoldsAs(file: string, managed: Env, k: string, a: string, w: string)
    requires PlainKey(k) && HeldAs(file, k, a, w) && PlainMap(managed) && k !in managed
    ensures HeldAs(Sync(file, managed), k, a, w)
  {
    ReadersKeepCore();
    SyncViewIsWritable(file);
    SpellingHasNoMark(a, k);
    SyncFixes(a, w);
    RewriteHolds(SyncLine, file, managed, k, a, w, a, w, w);
  }

  lemma {:induction false} AppendAsUpdate(file: string, x: string, w: string)
    ensures Append(file, x, w) == Written(ReadMap(AppendLine, Lines(file)) + map[x := w])
  {
    UpdateIsSum(AppendView(file), x, w);
  }

  lemma {:induction false} UpdateIsSum(m: Env, x: string, w: string)
    ensures m + map[x := w] == m[x := w]
  {
  }

  lemma {:induction false} AppendHolds(file: string, x: string, t: string, k: string, v: string)
    requires PlainKey(k) && Held(file, k, v) && PlainKey(x) && '\n' !in t && x != k
    ensures Held(Append(file, x, t), k, v)
  {
    var a, w :| HeldAs(file, k, a, w) && Loaded(w) == v;
    AppendRewrites(file, x, t, k, a, w);
    TrimRightKeeps(w);
    assert HeldAs(Append(file, x, t), k, k, TrimRight(w));
  }

  /** appendEnvKey takes a name over, whatever single line it had. */
  lemma {:induction false} AppendTakesOver(file: string, k: string, was: string, v: string)
    requires PlainKey(k) && Held(file, k, was) && PlainValue(v)
    ensures Held(Append(file, k, v), k, v)
  {
    AppendHoldsText(file, k, was, v);
    PlainValuesAreTheFixedPoints(v);
  }

  /** The same for any one-line text, which the loader may read differently. */
  lemma {:induction false} AppendHoldsText(file: string, k: string, was: string, v: string)
    requires PlainKey(k) && Held(file, k, was) && '\n' !in v
    ensures Held(Append(file, k, v), k, Loaded(v))
  {
    var a, w :| HeldAs(file, k, a, w) && Loaded(w) == was;
    AppendRewrites(file, k, v, k, a, w);
    assert HeldAs(Append(file, k, v), k, k, v);
  }

  lemma {:induction false} AppendRewrites(file: string, x: string, t: string, k: string, a: string, w: string)
    requires PlainKey(k) && HeldAs(file, k, a, w) && PlainKey(x) && '\n' !in t
    ensures HeldAs(Append(file, x, t), k, k, if x == k then t else TrimRight(w))
  {
    ReadersKeepCore();
    AppendViewIsWritable(file);
    AppendLineParts(a, w);
    TrimFixes(k);
    TrimRightKeeps(w);
    AppendAsUpdate(file, x, t);
    RewriteHolds(AppendLine, file, map[x := t], k, a, w, k, TrimRight(w), if x == k then t else TrimRight(w));
  }

  lemma {:induction false} SetJwtLineKeeps(lines: seq<string>, secret: string, l: string)
    ensures l in lines && !IsJwtLine(l) ==> l in SetJwtLine(lines, secret)
    ensures l in SetJwtLine(lines, secret) ==> l in lines || l == Line(JWT_SECRET, secret)
  {
    if lines != [] {
      assert lines == [lines[0]] + lines[1..];
      SetJwtLineKeeps(lines[1..], secret, l);
    }
  }

  lemma {:induction false} DropBlankKeeps(lines: seq<string>, l: string)
    ensures l in DropBlank(lines) <==> l in lines && Trim(l) != ""
  {
    if lines != [] {
      assert lines == [lines[0]] + lines[1..];
      DropBlankKeeps(lines[1..], l);
    }
  }

  lemma {:induction false} WriteJwtLines(file: string, secret: string, l: string)
    requires '\n' !in secret && l != ""
    ensures l in Lines(file) && !IsJwtLine(l) && Trim(l) != "" ==> l in Lines(WriteJwt(file, secret))
    ensures l in Lines(WriteJwt(file, secret)) ==> l in Lines(file) || l == Line(JWT_SECRET, secret)
  {
    var changed := SetJwtLine(Lines(file), secret);
    forall x | x in DropBlank(changed) ensures '\n' !in x {
      DropBlankKeeps(changed, x);
      SetJwtLineKeeps(Lines(file), secret, x);
    }
    LinesOfJoin(DropBlank(changed));
    DropBlankKeeps(changed, l);
    SetJwtLineKeeps(Lines(file), secret, l);
  }

  lemma {:induction false} SetJwtLineAt(lines: seq<string>, secret: string, i: nat)
    requires i <= |lines| && forall j | 0 <= j < i :: !IsJwtLine(lines[j])
    ensures i < |lines| && IsJwtLine(lines[i]) ==> SetJwtLine(lines, secret) == lines[i := JWT_SECRET + "=" + secret]
    ensures i == |lines| ==> SetJwtLine(lines, secret) == lines + [JWT_SECRET + "=" + secret]
  {
    if i > 0 {
      SetJwtLineAt(lines[1..], secret, i - 1);
      assert lines == [lines[0]] + lines[1..];
    }
  }

  lemma {:induction false} DropBlankNext(lines: seq<string>, i: nat)
    requires i < |lines|
    ensures DropBlank(lines[..i + 1]) == DropBlank(lines[..i]) + if Trim(lines[i]) != "" then [lines[i]] else []
  {
    DropBlankOfSum(lines[..i], [lines[i]]);
    assert lines[..i + 1] == lines[..i] + [lines[i]];
    assert [lines[i]][1..] == [];
  }

  lemma {:induction false} DropBlankOfSum(a: seq<string>, b: seq<string>)
    ensures DropBlank(a + b) == DropBlank(a) + DropBlank(b)
  {
    if a == [] {
      assert a + b == b;
    } else {
      DropBlankOfSum(a[1..], b);
      assert (a + b)[0] == a[0] && (a + b)[1..] == a[1..] + b;
      SumsAgree(if Trim(a[0]) != "" then [a[0]] else [], DropBlank(a[1..]), DropBlank(b));
    }
  }

  lemma {:induction false} SameKeyPart(k: string, v: string, j: string)
    requires '=' !in k && '=' !in j && j + "=" <= Line(k, v)
    ensures k == j
  {
    var l := Line(k, v);
    var rest := l[|j| + 1..];
    assert l == k + ['='] + v && l == j + ['='] + rest;
    FindFirst(k, '=', v);
    FindFirst(j, '=', rest);
    assert k == l[..|k|] && j == l[..|j|];
  }

  lemma {:induction false} JwtLineKey(a: string, w: string)
    requires '=' !in a && IsJwtLine(Line(a, w))
    ensures Trim(a) == JWT_SECRET
  {
    SpelledLineTrims(a, w);
    TrimLeftChars(a);
    PlainNames();
    SameKeyPart(TrimLeft(a), TrimRight(w), JWT_SECRET);
    TrimFixes(JWT_SECRET);
    TrimTwice(a);
  }

  lemma {:induction false} SpelledLineTrims(a: string, w: string)
    ensures Trim(Line(a, w)) == Line(TrimLeft(a), TrimRight(w)) != ""
  {
    assert Line(a, w) == a + ['='] + w;
    TrimAround(a, '=', w);
  }

  lemma {:induction false} WriteJwtHolds(file: string, secret: string, k: string, v: string)
    requires PlainKey(k) && k != JWT_SECRET && Held(file, k, v) && '\n' !in secret
    ensures Held(WriteJwt(file, secret), k, v)
  {
    var a, w :| HeldAs(file, k, a, w) && Loaded(w) == v;
    WriteJwtHoldsAs(file, secret, k, a, w);
  }

  lemma {:induction false} WriteJwtHoldsAs(file: string, secret: string, k: string, a: string, w: string)
    requires PlainKey(k) && k != JWT_SECRET && HeldAs(file, k, a, w) && '\n' !in secret
    ensures HeldAs(WriteJwt(file, secret), k, a, w)
  {
    PlainNames();
    KeyPartOfLine(JWT_SECRET, secret);
    CoreOfPlain(JWT_SECRET);
    forall l | l in Lines(WriteJwt(file, secret)) && Touches(l, k) ensures l == Line(a, w) {
      WriteJwtLines(file, secret, l);
    }
    if w != "" {
      var l := Line(a, w);
      SpelledLineTrims(a, w);
      if IsJwtLine(l) { JwtLineKey(a, w); }
      WriteJwtLines(file, secret, l);
    }
  }

  lemma {:induction false} PlainNames()
    ensures PlainKey(VM_SECRET) && PlainKey(SECURITY_SECRET) && PlainKey(LEGACY_SECRET) && PlainKey(JWT_SECRET)
    ensures VM_SECRET != SECURITY_SECRET && VM_SECRET != LEGACY_SECRET && SECURITY_SECRET != LEGACY_SECRET
    ensures JWT_SECRET != VM_SECRET && JWT_SECRET != SECURITY_SECRET && JWT_SECRET != LEGACY_SECRET
  {
    SecretsAreNames();
    OldSecretsAreNames();
    PlainNameIsPlainKey(VM_SECRET);
    PlainNameIsPlainKey(SECURITY_SECRET);
    PlainNameIsPlainKey(LEGACY_SECRET);
    PlainNameIsPlainKey(JWT_SECRET);
    assert |VM_SECRET| == 24 && |SECURITY_SECRET| == 19 && |LEGACY_SECRET| == 26 && |JWT_SECRET| == 14;
  }

  lemma {:induction false} SecretsAreNames()
    ensures NameChars(VM_SECRET) && NameChars(SECURITY_SECRET)
  {
  }

  lemma {:induction false} OldSecretsAreNames()
    ensures NameChars(LEGACY_SECRET) && NameChars(JWT_SECRET)
  {
  }

  // ---------------------------------------------------------------- the first start

  /** The file holds the three secrets of s for the next start. */
  ghost predicate Holds(file: string, s: State) {
    && Held(file, VM_SECRET, s.vm)
    && Held(file, SECURITY_SECRET, s.security)
    && Held(file, LEGACY_SECRET, s.legacy)
  }

  /** Both secrets exist and the file holds all three for the next start. */
  ghost predicate Settled(s: State) {
    s.vm != "" && s.security != "" && Holds(s.file, s)
  }

  predicate SameSecrets(s: State, t: State) {
    s.vm == t.vm && s.security == t.security && s.legacy == t.legacy
  }

  /** The file gives each of the three names one line at most, and these are its values. */
  ghost predicate HoldsAtFirst(file: string, vm: string, security: string, legacy: string) {
    Held(file, VM_SECRET, vm) && Held(file, SECURITY_SECRET, security) && Held(file, LEGACY_SECRET, legacy)
  }

  function JwtAt(file: string, outside: Env): string {
    GetEnvOr(Load(Lines(file), outside), JWT_SECRET, DEFAULT_JWT_SECRET)
  }

  /** The environment passes in no other secrets than the file has; a legacy secret may be passed in if
      there is no security secret, for then it is not looked at, and the JWT secret that becomes the
      legacy secret can be written and read back. */
  predicate Settles(outside: Env, jwt: string, vm: string, security: string, legacy: string) {
    && Agrees(outside, VM_SECRET, vm)
    && Agrees(outside, SECURITY_SECRET, security)
    && if security == "" then PlainValue(jwt) else Agrees(outside, LEGACY_SECRET, legacy)
  }

  lemma {:induction false} AfterVmHolds(file: string, known: string, newVm: string,
                                        vm: string, security: string, legacy: string)
    requires HoldsAtFirst(file, vm, security, legacy) && (known == "" ==> Generated(newVm))
    ensures HoldsAtFirst(AfterVm(file, known, newVm), if known == "" then newVm else vm, security, legacy)
  {
    PlainNames();
    if known == "" {
      AppendTakesOver(file, VM_SECRET, vm, newVm);
      AppendHolds(file, VM_SECRET, newVm, SECURITY_SECRET, security);
      AppendHolds(file, VM_SECRET, newVm, LEGACY_SECRET, legacy);
    }
  }

  lemma {:induction false} AfterSecurityHolds(file: string, newSecurity: string,
                                              vm: string, security: string, legacy: string)
    requires HoldsAtFirst(file, vm, security, legacy) && Generated(newSecurity)
    ensures HoldsAtFirst(Append(file, SECURITY_SECRET, newSecurity), vm, newSecurity, legacy)
  {
    PlainNames();
    AppendHolds(file, SECURITY_SECRET, newSecurity, VM_SECRET, vm);
    AppendTakesOver(file, SECURITY_SECRET, security, newSecurity);
    AppendHolds(file, SECURITY_SECRET, newSecurity, LEGACY_SECRET, legacy);
  }

  lemma {:induction false} AfterLegacyHolds(file: string, jwt: string, vm: string, security: string, legacy: string)
    requires HoldsAtFirst(file, vm, security, legacy) && '\n' !in jwt
    ensures HoldsAtFirst(Append(file, LEGACY_SECRET, jwt), vm, security, Loaded(jwt))
  {
    PlainNames();
    AppendHolds(file, LEGACY_SECRET, jwt, VM_SECRET, vm);
    AppendHolds(file, LEGACY_SECRET, jwt, SECURITY_SECRET, security);
    AppendHoldsText(file, LEGACY_SECRET, legacy, jwt);
  }

  lemma {:induction false} SettledIff(s: State, vm: string, security: string, legacy: string)
    requires s.vm != "" && s.security != "" && HoldsAtFirst(s.file, vm, security, legacy)
    ensures Settled(s) <==> s.vm == vm && s.security == security && s.legacy == legacy
  {
    PlainNames();
    if Settled(s) {
      HeldIsUnique(s.file, VM_SECRET, vm, s.vm);
      HeldIsUnique(s.file, SECURITY_SECRET, security, s.security);
      HeldIsUnique(s.file, LEGACY_SECRET, legacy, s.legacy);
    }
  }

  lemma {:induction false} ManyLinesAreNotHeld(file: string, k: string, v: string)
    requires PlainKey(k) && '\n' in v
    ensures !Held(file, k, v)
  {
    if Held(file, k, v) {
      HeldOffer(file, k, v);
      FirstOfferIsSingleLine(file, k);
    }
  }

  /** The first start settles a file that gives each name one line at most exactly if `Settles`. */
  lemma {:induction false} FirstStartSettles(file: string, outside: Env, newVm: string, newSecurity: string,
                                             vm: string, security: string, legacy: string)
    requires HoldsAtFirst(file, vm, security, legacy)
    requires (vm == "" ==> Generated(newVm)) && (security == "" ==> Generated(newSecurity))
    ensures Settled(Start(file, outside, newVm, newSecurity))
            <==> Settles(outside, JwtAt(file, outside), vm, security, legacy)
  {
    PlainNames();
    var s := Start(file, outside, newVm, newSecurity);
    HeldLoads(file, VM_SECRET, vm, outside);
    HeldLoads(file, SECURITY_SECRET, security, outside);
    HeldLoads(file, LEGACY_SECRET, legacy, outside);
    var known := GetEnvOr(outside, VM_SECRET, vm);
    var file1, vm1 := AfterVm(file, known, newVm), if known == "" then newVm else vm;
    AfterVmHolds(file, known, newVm, vm, security, legacy);
    if GetEnvOr(outside, SECURITY_SECRET, security) != "" {
      SettledIff(s, vm1, security, legacy);
    } else {
      SplitSettles(file1, s, vm1, security, legacy);
    }
  }

  /** A start that generates the security secret settles if it has the VM secret of the file and its JWT
      secret is plain. */
  lemma {:induction false} SplitSettles(file: string, s: State, vm: string, security: string, legacy: string)
    requires HoldsAtFirst(file, vm, security, legacy) && s.vm != "" && Generated(s.security) && s.jwt != ""
    requires s.legacy == s.jwt
    requires s.file == Append(Append(file, SECURITY_SECRET, s.security), LEGACY_SECRET, s.jwt)
    ensures Settled(s) <==> s.vm == vm && PlainValue(s.jwt)
  {
    PlainNames();
    if '\n' in s.jwt {
      ManyLinesAreNotHeld(s.file, LEGACY_SECRET, s.jwt);
    } else {
      AfterSecurityHolds(file, s.security, vm, security, legacy);
      AfterLegacyHolds(Append(file, SECURITY_SECRET, s.security), s.jwt, vm, s.security, legacy);
      SettledIff(s, vm, s.security, Loaded(s.jwt));
      PlainValuesAreTheFixedPoints(s.jwt);
    }
  }

  /** It keeps the secrets that the file has, and makes the JWT secret the legacy one if it generates. */
  lemma {:induction false} FirstStartKeeps(file: string, outside: Env, newVm: string, newSecurity: string,
                                           vm: string, security: string, legacy: string)
    requires HoldsAtFirst(file, vm, security, legacy)
    requires Settles(outside, JwtAt(file, outside), vm, security, legacy)
    ensures var s := Start(file, outside, newVm, newSecurity);
            && s.vm == (if vm == "" then newVm else vm)
            && s.security == (if security == "" then newSecurity else security)
            && s.legacy == (if security == "" then JwtAt(file, outside) else legacy)
  {
    PlainNames();
    HeldLoads(file, VM_SECRET, vm, outside);
    HeldLoads(file, SECURITY_SECRET, security, outside);
    HeldLoads(file, LEGACY_SECRET, legacy, outside);
  }

  lemma {:induction false} EmptyFileHolds(k: string)
    requires PlainKey(k)
    ensures Held("", k, "")
  {
    assert Lines("") == [""];
    TrimFixes(k);
    assert HeldAs("", k, k, "") && Loaded("") == "";
  }

  lemma {:induction false} EmptyFileHoldsNone()
    ensures HoldsAtFirst("", "", "", "")
  {
    PlainNames();
    EmptyFileHolds(VM_SECRET);
    EmptyFileHolds(SECURITY_SECRET);
    EmptyFileHolds(LEGACY_SECRET);
  }

  /** A fresh install has no file; it settles exactly if no secret comes from outside and the JWT secret
      is plain. */
  lemma {:induction false} FreshInstallSettles(outside: Env, newVm: string, newSecurity: string)
    requires Generated(newVm) && Generated(newSecurity)
    ensures Settled(Start("", outside, newVm, newSecurity))
            <==> Getenv(outside, VM_SECRET) == "" && Getenv(outside, SECURITY_SECRET) == ""
                 && PlainValue(GetEnvOr(outside, JWT_SECRET, DEFAULT_JWT_SECRET))
  {
    EmptyFileHoldsNone();
    FirstStartSettles("", outside, newVm, newSecurity, "", "", "");
    EmptyFileLoadsNothing(outside);
  }

  // ---------------------------------------------------------------- a start that is cut short

  /** The file if the process dies between the two appends of a split. */
  ghost function CutShort(file: string, outside: Env, newVm: string, newSecurity: string): string {
    Append(AfterVm(file, Getenv(Load(Lines(file), outside), VM_SECRET), newVm), SECURITY_SECRET, newSecurity)
  }

  /** A process that dies between writing the new security secret and the legacy secret: the next start
      finds its secrets and never splits again. It has the legacy secret of the old file, so the JWT
      secret is the legacy one exactly if it was before. */
  lemma {:induction false} CrashBetweenAppends(file: string, outside: Env, newVm: string, newSecurity: string,
                                               vm: string, legacy: string,
                                               later: Env, newVm': string, newSecurity': string)
    requires HoldsAtFirst(file, vm, "", legacy) && Agrees(outside, VM_SECRET, vm)
    requires Getenv(outside, SECURITY_SECRET) == ""
    requires (vm == "" ==> Generated(newVm)) && Generated(newSecurity)
    requires AgreesWith(later, Start(file, outside, newVm, newSecurity).(legacy := legacy))
    ensures var s := Start(file, outside, newVm, newSecurity);
            var t := Start(CutShort(file, outside, newVm, newSecurity), later, newVm', newSecurity');
            && Settled(t) && t.vm == s.vm && t.security == s.security && t.legacy == legacy
            && (SameSecrets(s, t) <==> legacy == JwtAt(file, outside))
  {
    PlainNames();
    HeldLoads(file, VM_SECRET, vm, outside);
    HeldLoads(file, SECURITY_SECRET, "", outside);
    var s := Start(file, outside, newVm, newSecurity);
    var file1 := AfterVm(file, vm, newVm);
    AfterVmHolds(file, vm, newVm, vm, "", legacy);
    AfterSecurityHolds(file1, newSecurity, s.vm, "", legacy);
    var file2 := Append(file1, SECURITY_SECRET, newSecurity);
    FirstStartSettles(file2, later, newVm', newSecurity', s.vm, newSecurity, legacy);
    FirstStartKeeps(file2, later, newVm', newSecurity', s.vm, newSecurity, legacy);
  }

  /** A process that dies before it writes the security secret loses nothing: the next start splits. */
  lemma {:induction false} CrashBeforeSecurity(file: string, outside: Env, newVm: string, newSecurity: string,
                                               vm: string, legacy: string,
                                               later: Env, newVm': string, newSecurity': string)
    requires HoldsAtFirst(file, vm, "", legacy) && Agrees(outside, VM_SECRET, vm)
    requires (vm == "" ==> Generated(newVm)) && Generated(newSecurity')
    requires var file1 := AfterVm(file, Getenv(Load(Lines(file), outside), VM_SECRET), newVm);
             Settles(later, JwtAt(file1, later), if vm == "" then newVm else vm, "", legacy)
    ensures var file1 := AfterVm(file, Getenv(Load(Lines(file), outside), VM_SECRET), newVm);
            var t := Start(file1, later, newVm', newSecurity');
            && Settled(t) && t.vm == (if vm == "" then newVm else vm)
            && t.security == newSecurity' && t.legacy == JwtAt(file1, later)
  {
    PlainNames();
    HeldLoads(file, VM_SECRET, vm, outside);
    var vm1 := if vm == "" then newVm else vm;
    AfterVmHolds(file, vm, newVm, vm, "", legacy);
    FirstStartSettles(AfterVm(file, vm, newVm), later, newVm', newSecurity', vm1, "", legacy);
    FirstStartKeeps(AfterVm(file, vm, newVm), later, newVm', newSecurity', vm1, "", legacy);
  }

  // ---------------------------------------------------------------- whole runs

  /** A start from a file that holds all secrets writes nothing, and has those secrets exactly if the
      environment passes in no others. */
  lemma {:induction false} RestartKeepsIff(file: string, s: State, outside: Env, newVm: string, newSecurity: string)
    requires s.vm != "" && s.security != "" && Holds(file, s)
    ensures Start(file, outside, newVm, newSecurity).file == file
    ensures SameSecrets(s, Start(file, outside, newVm, newSecurity)) <==> AgreesWith(outside, s)
  {
    PlainNames();
    HeldLoads(file, VM_SECRET, s.vm, outside);
    HeldLoads(file, SECURITY_SECRET, s.security, outside);
    HeldLoads(file, LEGACY_SECRET, s.legacy, outside);
  }

  /** No event takes a secret out of the file. */
  lemma {:induction false} StepHolds(s: State, now: State, e: Event)
    requires s.vm != "" && s.security != "" && Holds(now.file, s) && Harmless(e)
    ensures Holds(Step(now, e).file, s)
  {
    PlainNames();
    match e
    case Restart(outside, newVm, newSecurity) =>
      RestartKeepsIff(now.file, s, outside, newVm, newSecurity);
    case Save(managed) =>
      SyncHolds(now.file, managed, VM_SECRET, s.vm);
      SyncHolds(now.file, managed, SECURITY_SECRET, s.security);
      SyncHolds(now.file, managed, LEGACY_SECRET, s.legacy);
    case RotateJwt(secret) =>
      WriteJwtHolds(now.file, secret, VM_SECRET, s.vm);
      WriteJwtHolds(now.file, secret, SECURITY_SECRET, s.security);
      WriteJwtHolds(now.file, secret, LEGACY_SECRET, s.legacy);
  }

  lemma {:induction false} StepKeepsSecrets(s: State, e: Event)
    requires Settled(s) && Admissible(s, e)
    ensures Settled(Step(s, e)) && SameSecrets(s, Step(s, e))
  {
    StepHolds(s, s, e);
    if e.Restart? {
      RestartKeepsIff(s.file, s, e.outside, e.newVm, e.newSecurity);
    }
  }

  /** The last start of the run passed in no other secrets than those of s. */
  predicate LastStartAgrees(s: State, es: seq<Event>) {
    es == [] || (var e := es[|es| - 1];
                 if e.Restart? then AgreesWith(e.outside, s) else LastStartAgrees(s, es[..|es| - 1]))
  }

  /** Once settled, over any run: the file holds the secrets for ever, and the process has them exactly
      if the environment of its last start agreed with them. */
  lemma {:induction false} RunKeepsSecretsIff(s: State, es: seq<Event>)
    requires Settled(s) && forall e | e in es :: Harmless(e)
    ensures Holds(Run(s, es).file, s)
    ensures SameSecrets(s, Run(s, es)) <==> LastStartAgrees(s, es)
  {
    if es != [] {
      var front, e := es[..|es| - 1], es[|es| - 1];
      assert e in es;
      RunKeepsSecretsIff(s, front);
      StepHolds(s, Run(s, front), e);
      if e.Restart? {
        RestartKeepsIff(Run(s, front).file, s, e.outside, e.newVm, e.newSecurity);
      }
    }
  }

  /** The legacy secret of a first start is its JWT secret; the next start agrees exactly if that is
      passed in as the legacy secret, or nothing is passed in and it is plain. */
  lemma {:induction false} LegacySurvivesIffPlain(file: string, outside: Env, newVm: string, newSecurity: string,
                                                  later: Env)
    requires Getenv(Load(Lines(file), outside), SECURITY_SECRET) == ""
    ensures var jwt, s := JwtAt(file, outside), Start(file, outside, newVm, newSecurity);
            && s.legacy == jwt
            && (Getenv(Load(Lines(s.file), later), LEGACY_SECRET) == jwt
                <==> if Getenv(later, LEGACY_SECRET) == "" then PlainValue(jwt)
                     else Getenv(later, LEGACY_SECRET) == jwt)
  {
    PlainNames();
    var s := Start(file, outside, newVm, newSecurity);
    var file1 := AfterVm(file, Getenv(Load(Lines(file), outside), VM_SECRET), newVm);
    LoadGet(Lines(s.file), later, LEGACY_SECRET);
    if Getenv(later, LEGACY_SECRET) == "" {
      AppendThenLoad(Append(file1, SECURITY_SECRET, newSecurity), LEGACY_SECRET, s.jwt, later);
    }
  }

  lemma {:induction false} AppendLosesBlank(file: string, outside: Env)
    requires Getenv(outside, LEGACY_SECRET) == ""
    ensures Getenv(Load(Lines(Append(file, LEGACY_SECRET, " x")), outside), LEGACY_SECRET) == "x"
  {
    PlainNames();
    LoadAfterAppend(file, LEGACY_SECRET, " x", LEGACY_SECRET, outside);
    LoadedBlankX();
  }

  lemma {:induction false} FreshStart(outside: Env, newVm: string, newSecurity: string, jwt: string)
    requires outside == map[JWT_SECRET := jwt] && jwt != ""
    ensures Start("", outside, newVm, newSecurity)
            == State(Append(Append(Append("", VM_SECRET, newVm), SECURITY_SECRET, newSecurity), LEGACY_SECRET, jwt),
                     newVm, newSecurity, jwt, jwt)
  {
    PlainNames();
    EmptyFileLoadsNothing(outside);
  }

  /** A JWT secret with a blank in front, passed in from outside, is lost as legacy secret. */
  lemma {:induction false} BlankInFrontIsLost(outside: Env, newVm: string, newSecurity: string)
    requires outside == map[JWT_SECRET := " x"]
    ensures var s := Start("", outside, newVm, newSecurity);
            s.legacy == " x" && Getenv(Load(Lines(s.file), outside), LEGACY_SECRET) == "x"
  {
    PlainNames();
    FreshStart(outside, newVm, newSecurity, " x");
    AppendLosesBlank(Append(Append("", VM_SECRET, newVm), SECURITY_SECRET, newSecurity), outside);
  }

  lemma {:induction false} LoadedBlankX()
    ensures Loaded(" x") == "x"
  {
    TrimLeftBlank(" ", "x");
    assert " " + "x" == " x" && TrimLeft("x") == "x" && TrimRight("x") == "x";
  }

  // ---------------------------------------------------------------- the rotated JWT secret

  /** The lines before the one that a rotation replaces, or all lines if there is none. */
  function BeforeJwt(lines: seq<string>): seq<string> {
    if lines == [] || IsJwtLine(lines[0]) then [] else [lines[0]] + BeforeJwt(lines[1..])
  }

  /** A rotation keeps the lines before, writes its own line, and keeps the lines behind. */
  lemma {:induction false} SetJwtLineParts(lines: seq<string>, secret: string)
    ensures |BeforeJwt(lines)| <= |lines| && BeforeJwt(lines) == lines[..|BeforeJwt(lines)|]
    ensures forall l | l in BeforeJwt(lines) :: !IsJwtLine(l)
    ensures |BeforeJwt(lines)| < |lines| ==> IsJwtLine(lines[|BeforeJwt(lines)|])
    ensures SetJwtLine(lines, secret) == BeforeJwt(lines) + [Line(JWT_SECRET, secret)]
            + if |BeforeJwt(lines)| < |lines| then lines[|BeforeJwt(lines)| + 1..] else []
  {
    if lines != [] {
      assert lines == [lines[0]] + lines[1..];
      if !IsJwtLine(lines[0]) {
        SetJwtLineParts(lines[1..], secret);
      }
    }
  }

  lemma {:induction false} BlankOffersNothing(l: string, k: string)
    requires Trim(l) == ""
    ensures Offer(l, k) == ""
  {
  }

  lemma {:induction false} DropBlankOffers(lines: seq<string>, k: string)
    ensures FirstOffer(DropBlank(lines), k) == FirstOffer(lines, k)
  {
    if lines != [] {
      var head := if Trim(lines[0]) != "" then [lines[0]] else [];
      DropBlankOffers(lines[1..], k);
      FirstNonEmptyOfSum(Offers(k), head, DropBlank(lines[1..]));
      FirstNonEmptyOfSum(Offers(k), [lines[0]], lines[1..]);
      assert lines == [lines[0]] + lines[1..];
      if Trim(lines[0]) == "" { BlankOffersNothing(lines[0], k); }
      OneLineOffers(lines[0], k);
    }
  }

  lemma {:induction false} OneLineOffers(l: string, k: string)
    ensures FirstOffer([l], k) == Offer(l, k)
  {
    FirstNonEmptyOfOne(Offers(k), l);
  }

  lemma {:induction false} MiddleOffers(before: seq<string>, line: string, rest: seq<string>, k: string)
    requires Offer(line, k) != ""
    ensures FirstOffer(DropBlank(before + [line] + rest) + [""], k) ==
            if FirstOffer(before, k) != "" then FirstOffer(before, k) else Offer(line, k)
  {
    FirstNonEmptyOfSum(Offers(k), DropBlank(before + [line] + rest), [""]);
    OneLineOffers("", k);
    EmptyLineOffersNothing(k);
    DropBlankOffers(before + [line] + rest, k);
    FirstNonEmptyOfSum(Offers(k), before + [line], rest);
    FirstNonEmptyOfSum(Offers(k), before, [line]);
    OneLineOffers(line, k);
  }

  lemma {:induction false} WrittenJwtLines(file: string, secret: string)
    requires '\n' !in secret
    ensures Lines(WriteJwt(file, secret)) == DropBlank(SetJwtLine(Lines(file), secret)) + [""]
  {
    var changed := SetJwtLine(Lines(file), secret);
    forall x | x in DropBlank(changed) ensures '\n' !in x {
      DropBlankKeeps(changed, x);
      SetJwtLineKeeps(Lines(file), secret, x);
    }
    LinesOfJoin(DropBlank(changed));
    SetJwtLineParts(Lines(file), secret);
    SpelledLineTrims(JWT_SECRET, secret);
    DropBlankKeeps(changed, Line(JWT_SECRET, secret));
  }

  /** What the next start has after a rotation: the text passed in, else what a line before the rewritten
      one offers, else the new secret. */
  lemma {:induction false} RotatedLoads(file: string, secret: string, outside: Env)
    requires Generated(secret)
    ensures var first := FirstOffer(BeforeJwt(Lines(file)), JWT_SECRET);
            Getenv(Load(Lines(WriteJwt(file, secret)), outside), JWT_SECRET)
            == GetEnvOr(outside, JWT_SECRET, if first != "" then first else secret)
  {
    PlainNames();
    LoadGet(Lines(WriteJwt(file, secret)), outside, JWT_SECRET);
    WrittenJwtLines(file, secret);
    SetJwtLineParts(Lines(file), secret);
    OwnLineOffers(JWT_SECRET, secret);
    var before := BeforeJwt(Lines(file));
    MiddleOffers(before, Line(JWT_SECRET, secret),
                 if |before| < |Lines(file)| then Lines(file)[|before| + 1..] else [], JWT_SECRET);
  }

  /** So it is the new secret exactly if that is passed in, or nothing is and no line before the rewritten
      one gives the name another text: a line `NAME = x` is not rewritten. */
  lemma {:induction false} RotationLoadsIff(file: string, secret: string, outside: Env)
    requires Generated(secret)
    ensures Getenv(Load(Lines(WriteJwt(file, secret)), outside), JWT_SECRET) == secret
            <==> if Getenv(outside, JWT_SECRET) != "" then Getenv(outside, JWT_SECRET) == secret
                 else FirstOffer(BeforeJwt(Lines(file)), JWT_SECRET) in ["", secret]
  {
    RotatedLoads(file, secret, outside);
  }

  lemma {:induction false} OwnLineOffers(k: string, v: string)
    requires PlainKey(k) && Generated(v)
    ensures Offer(Line(k, v), k) == v
  {
    OfferParts(k, v, k);
    TrimFixes(k);
    PlainValuesAreTheFixedPoints(v);
  }

  lemma {:induction false} SpacedIsNoJwtLine(a: string, x: string)
    requires a == JWT_SECRET + " "
    ensures Trim(a) == JWT_SECRET && '=' !in a && !IsJwtLine(Line(a, x))
  {
    PlainNames();
    TrimRightBlank(JWT_SECRET, " ");
    assert a[0] == JWT_SECRET[0];
    SpelledLineTrims(a, x);
    if IsJwtLine(Line(a, x)) {
      SameKeyPart(a, TrimRight(x), JWT_SECRET);
    }
  }

  lemma {:induction false} OnlyOffer(l: string, k: string)
    requires !IsJwtLine(l) && Offer(l, k) != ""
    ensures FirstOffer(BeforeJwt([l, ""]), k) == Offer(l, k)
  {
    assert [l, ""][1..] == [""] && [""][1..] == [];
    assert BeforeJwt([""]) == [""] + BeforeJwt([]);
    assert BeforeJwt([l, ""]) == [l] + [""];
    FirstNonEmptyOfSum(Offers(k), [l], [""]);
    OneLineOffers(l, k);
  }

  /** A file with the line `KVM_JWT_SECRET = x` undoes every rotation at the next start. */
  lemma {:induction false} SpacedJwtUndoesRotation(file: string, x: string, secret: string, outside: Env)
    requires '\n' !in x && Loaded(x) !in ["", secret] && file == Join([Line(JWT_SECRET + " ", x)]) + "\n"
    requires Generated(secret) && Getenv(outside, JWT_SECRET) == ""
    ensures Getenv(Load(Lines(WriteJwt(file, secret)), outside), JWT_SECRET) == Loaded(x)
  {
    PlainNames();
    var l := Line(JWT_SECRET + " ", x);
    SpacedIsNoJwtLine(JWT_SECRET + " ", x);
    LinesOfJoin1([l]);
    assert Lines(file) == [l, ""];
    OfferParts(JWT_SECRET + " ", x, JWT_SECRET);
    OnlyOffer(l, JWT_SECRET);
    RotatedLoads(file, secret, outside);
  }

  /** One line about the JWT secret at most, as the program itself writes it. */
  ghost predicate OnlyJwt(file: string, w: string) {
    HeldAs(file, JWT_SECRET, JWT_SECRET, w) && multiset(Lines(file))[Line(JWT_SECRET, w)] <= 1
  }

  lemma {:induction false} JwtAfterSave(file: string, managed: Env, w: string)
    requires OnlyJwt(file, w) && PlainMap(managed) && JWT_SECRET !in managed
    ensures OnlyJwt(Sync(file, managed), w)
  {
    PlainNames();
    SyncHoldsAs(file, managed, JWT_SECRET, JWT_SECRET, w);
    SyncedMapIsSingleLine(file, managed);
    SyncViewIsWritable(file);
    WrittenOnce(SyncView(file) + managed, Line(JWT_SECRET, w));
  }

  lemma {:induction false} JwtAfterAppend(file: string, x: string, t: string, w: string)
    requires OnlyJwt(file, w) && PlainKey(x) && x != JWT_SECRET && '\n' !in t && TrimRight(w) == w
    ensures OnlyJwt(Append(file, x, t), w)
  {
    PlainNames();
    AppendRewrites(file, x, t, JWT_SECRET, JWT_SECRET, w);
    AppendedMapIsSingleLine(file, x, t);
    AppendViewIsWritable(file);
    WrittenOnce(AppendView(file)[x := t], Line(JWT_SECRET, w));
  }

  lemma {:induction false} JwtAfterStart(file: string, outside: Env, newVm: string, newSecurity: string, w: string)
    requires OnlyJwt(file, w) && TrimRight(w) == w && WritesLines(file, outside, newVm, newSecurity)
    ensures OnlyJwt(Start(file, outside, newVm, newSecurity).file, w)
  {
    PlainNames();
    var env := Load(Lines(file), outside);
    var file1 := AfterVm(file, Getenv(env, VM_SECRET), newVm);
    if Getenv(env, VM_SECRET) == "" {
      JwtAfterAppend(file, VM_SECRET, newVm, w);
    }
    if Getenv(env, SECURITY_SECRET) == "" {
      JwtAfterAppend(file1, SECURITY_SECRET, newSecurity, w);
      JwtAfterAppend(Append(file1, SECURITY_SECRET, newSecurity), LEGACY_SECRET, JwtAt(file, outside), w);
    }
  }

  lemma {:induction false} JwtLineTouches(l: string)
    requires IsJwtLine(l)
    ensures Touches(l, JWT_SECRET)
  {
    PlainNames();
    assert (JWT_SECRET + "=")[|JWT_SECRET|] == '=';
    TrimIsTrimmed(l);
    assert Trim(l)[|JWT_SECRET|] == '=' && '=' in l;
    var a, b := SplitAtEquals(l);
    KeyPartOfLine(a, b);
    JwtLineKey(a, b);
    CoreOfSpelling(a, JWT_SECRET);
  }

  /** The lines that a rotation rewrites: the name directly before '=', blanks in front of it aside. */
  lemma {:induction false} JwtLineIff(l: string)
    ensures IsJwtLine(l) <==> exists a, b :: AllSpace(a) && l == a + Line(JWT_SECRET, b)
  {
    if IsJwtLine(l) {
      var a, b := TrimParts(l);
      var rest := Trim(l)[|JWT_SECRET| + 1..];
      assert Trim(l) == Line(JWT_SECRET, rest);
      assert l == a + Line(JWT_SECRET, rest + b);
    }
    forall a, b | AllSpace(a) && l == a + Line(JWT_SECRET, b) ensures IsJwtLine(l) {
      OwnJwtLine(b);
      TrimLeftBlank(a, Line(JWT_SECRET, b));
    }
  }

  lemma {:induction false} OwnJwtLine(w: string)
    ensures IsJwtLine(Line(JWT_SECRET, w)) && Touches(Line(JWT_SECRET, w), JWT_SECRET)
    ensures Trim(Line(JWT_SECRET, w)) != ""
  {
    PlainNames();
    SpelledLineTrims(JWT_SECRET, w);
    assert TrimLeft(JWT_SECRET) == JWT_SECRET;
    assert Line(JWT_SECRET, TrimRight(w)) == (JWT_SECRET + "=") + TrimRight(w);
    KeyPartOfLine(JWT_SECRET, w);
    CoreOfPlain(JWT_SECRET);
  }

  lemma {:induction false} NotTwice(before: seq<string>, here: seq<string>, rest: seq<string>, x: string)
    requires multiset(before + here + rest)[x] <= 1 && x in here
    ensures x !in rest
  {
    assert multiset(before + here + rest) == multiset(before) + multiset(here) + multiset(rest);
    assert x in multiset(here);
    assert x in rest ==> multiset(rest)[x] > 0;
  }

  /** Around the line that a rotation rewrites no line is about the JWT secret. */
  lemma {:induction false} NoOtherJwtLine(file: string, w: string, before: seq<string>, here: seq<string>,
                                          rest: seq<string>, l: string)
    requires OnlyJwt(file, w) && Lines(file) == before + here + rest
    requires (forall x | x in before :: !IsJwtLine(x)) && (forall x | x in here :: IsJwtLine(x))
    requires here == [] ==> rest == []
    requires l in before || l in rest
    ensures !Touches(l, JWT_SECRET)
  {
    var line := Line(JWT_SECRET, w);
    OwnJwtLine(w);
    assert l in Lines(file) && (Touches(l, JWT_SECRET) ==> l == line);
    if l !in before {
      assert here[0] in Lines(file);
      JwtLineTouches(here[0]);
      NotTwice(before, here, rest, line);
    }
  }

  lemma {:induction false} DropBlankCounts(lines: seq<string>, l: string)
    requires Trim(l) != ""
    ensures multiset(DropBlank(lines))[l] == multiset(lines)[l]
  {
    if lines != [] {
      assert lines == [lines[0]] + lines[1..];
      DropBlankCounts(lines[1..], l);
    }
  }

  lemma {:induction false} RotationParts(lines: seq<string>, secret: string)
    returns (before: seq<string>, here: seq<string>, rest: seq<string>)
    ensures lines == before + here + rest && (here == [] ==> rest == [])
    ensures (forall x | x in before :: !IsJwtLine(x)) && (forall x | x in here :: IsJwtLine(x))
    ensures SetJwtLine(lines, secret) == before + [Line(JWT_SECRET, secret)] + rest
  {
    SetJwtLineParts(lines, secret);
    before := BeforeJwt(lines);
    if |before| < |lines| {
      here, rest := [lines[|before|]], lines[|before| + 1..];
    } else {
      here, rest := [], [];
    }
  }

  lemma {:induction false} JwtAfterRotation(file: string, secret: string, w: string)
    requires OnlyJwt(file, w) && '\n' !in secret
    ensures OnlyJwt(WriteJwt(file, secret), secret)
  {
    var before, here, rest := RotationParts(Lines(file), secret);
    WrittenJwtLines(file, secret);
    forall l | l in before || l in rest ensures !Touches(l, JWT_SECRET) {
      NoOtherJwtLine(file, w, before, here, rest, l);
    }
    RotatedIsAlone(file, secret, before, rest);
  }

  lemma {:induction false} RotatedIsAlone(file: string, secret: string, before: seq<string>, rest: seq<string>)
    requires '\n' !in secret
    requires Lines(WriteJwt(file, secret)) == DropBlank(before + [Line(JWT_SECRET, secret)] + rest) + [""]
    requires forall l | l in before || l in rest :: !Touches(l, JWT_SECRET)
    ensures OnlyJwt(WriteJwt(file, secret), secret)
  {
    PlainNames();
    var line := Line(JWT_SECRET, secret);
    var all := before + [line] + rest;
    OwnJwtLine(secret);
    TrimFixes(JWT_SECRET);
    DropBlankCounts(all, line);
    assert line !in multiset(before) && line !in multiset(rest);
    DropBlankKeeps(all, line);
    forall l | l in Lines(WriteJwt(file, secret)) && Touches(l, JWT_SECRET) ensures l == line {
      DropBlankKeeps(all, l);
    }
  }

  /** The texts of the event are on one line, a save leaves the JWT secret alone, a rotated one is drawn. */
  ghost predicate Orderly(e: Event) {
    match e
    case Restart(outside, newVm, newSecurity) =>
      '\n' !in Getenv(outside, JWT_SECRET) && '\n' !in newVm && '\n' !in newSecurity
    case Save(managed) => PlainMap(managed) && JWT_SECRET !in managed
    case RotateJwt(secret) => Generated(secret)
  }

  function Rotated(w: string, e: Event): string {
    if e.RotateJwt? then e.secret else w
  }

  function LastRotated(w: string, es: seq<Event>): string {
    if es == [] then w else Rotated(LastRotated(w, es[..|es| - 1]), es[|es| - 1])
  }

  lemma {:induction false} OrderlyKeepsJwt(s: State, e: Event, w: string)
    requires OnlyJwt(s.file, w) && TrimRight(w) == w && Orderly(e)
    ensures OnlyJwt(Step(s, e).file, Rotated(w, e)) && TrimRight(Rotated(w, e)) == Rotated(w, e)
  {
    match e
    case Restart(outside, newVm, newSecurity) =>
      StartWritesLines(s.file, outside, newVm, newSecurity);
      JwtAfterStart(s.file, outside, newVm, newSecurity, w);
    case Save(managed) => JwtAfterSave(s.file, managed, w);
    case RotateJwt(secret) => JwtAfterDrawn(s.file, secret, w);
  }

  lemma {:induction false} JwtAfterDrawn(file: string, secret: string, w: string)
    requires OnlyJwt(file, w) && Generated(secret)
    ensures OnlyJwt(WriteJwt(file, secret), secret) && TrimRight(secret) == secret
  {
    JwtAfterRotation(file, secret, w);
  }

  /** Over any run from a file with one line about the JWT secret at most, the last rotated secret stays:
      every later start has it, unless its environment passes in another one. */
  lemma {:induction false} RotatedSecretOutlivesRuns(s: State, es: seq<Event>, w: string, outside: Env)
    requires OnlyJwt(s.file, w) && TrimRight(w) == w && forall e | e in es :: Orderly(e)
    ensures OnlyJwt(Run(s, es).file, LastRotated(w, es)) && TrimRight(LastRotated(w, es)) == LastRotated(w, es)
    ensures var held := Loaded(LastRotated(w, es));
            JwtAt(Run(s, es).file, outside)
            == GetEnvOr(outside, JWT_SECRET, if held != "" then held else DEFAULT_JWT_SECRET)
  {
    if es != [] {
      var front, e := es[..|es| - 1], es[|es| - 1];
      assert e in es;
      RotatedSecretOutlivesRuns(s, front, w, outside);
      OrderlyKeepsJwt(Run(s, front), e, LastRotated(w, front));
    }
    JwtHeldIsLoaded(Run(s, es).file, LastRotated(w, es), outside);
  }

  lemma {:induction false} JwtHeldIsLoaded(file: string, w: string, outside: Env)
    requires OnlyJwt(file, w)
    ensures JwtAt(file, outside) ==
            GetEnvOr(outside, JWT_SECRET, if Loaded(w) != "" then Loaded(w) else DEFAULT_JWT_SECRET)
  {
    PlainNames();
    HeldLoads(file, JWT_SECRET, Loaded(w), outside);
  }

  // ---------------------------------------------------------------- why the names must be unique

  /** All lines about k are spelled k=..., in any number and with any values. */
  ghost predicate PlainlySpelled(file: string, k: string) {
    forall l | l in Lines(file) && Touches(l, k) :: KeyPart(l) == k
  }

  /** A name that is not saved keeps its value through save and restart exactly when it is passed in from
      outside, or the first usable line of the file agrees with the first of its last lines, spelling by
      spelling, in sort order. */
  lemma {:induction false} SaveKeepsNameIff(file: string, managed: Env, k: string, outside: Env)
    requires PlainKey(k) && PlainMap(managed) && k !in managed
    ensures Getenv(Load(Lines(Sync(file, managed)), outside), k) == Getenv(Load(Lines(file), outside), k)
            <==> Getenv(outside, k) != "" || FirstOffer(Lines(file), k) == FirstSpelled(SyncView(file), k)
  {
    LoadGet(Lines(file), outside, k);
    LoadGet(Lines(Sync(file, managed)), outside, k);
    if Getenv(outside, k) == "" {
      LeftAloneLoads(file, managed, k, outside);
    }
  }

  /** For a name with one spelling that is its last line: the loader takes the first line, a save keeps
      the last. */
  lemma {:induction false} SaveKeepsNameIffFirstIsLast(file: string, managed: Env, k: string, outside: Env)
    requires PlainKey(k) && PlainMap(managed) && k !in managed && PlainlySpelled(file, k)
    ensures Getenv(Load(Lines(Sync(file, managed)), outside), k) == Getenv(Load(Lines(file), outside), k)
            <==> Getenv(outside, k) != "" || FirstOffer(Lines(file), k) == Loaded(Getenv(SyncView(file), k))
  {
    SaveKeepsNameIff(file, managed, k, outside);
    OneSpellingIsFirst(file, k);
  }

  lemma {:induction false} OneSpellingIsFirst(file: string, k: string)
    requires PlainKey(k) && PlainlySpelled(file, k)
    ensures FirstSpelled(SyncView(file), k) == Loaded(Getenv(SyncView(file), k))
  {
    var view := SyncView(file);
    forall x | Spells(view, k, x) ensures x == k {
      CoreOfSpelling(x, k);
      OnlySpelling(file, k, x);
    }
    TrimFixes(k);
    LessIrreflexive(Line(k, Getenv(view, k)));
    assert Loaded("") == "";
    assert Spells(view, k, k) ==> FirstSpelling(view, k, k);
  }

  lemma {:induction false} OnlySpelling(file: string, k: string, x: string)
    requires PlainKey(k) && PlainlySpelled(file, k) && x in SyncView(file) && Core(x) == k
    ensures x == k
  {
    ReadSound(SyncLine, Lines(file), x);
    var l :| l in Lines(file) && SyncLine(l) == Some(Binding(x, SyncView(file)[x]));
    ReadersKeepCoreOf(l);
    var a, b := SplitAtEquals(l);
    KeyPartOfLine(a, b);
    SyncLineParts(a, b);
  }

  lemma {:induction false} OnlyAppendSpelling(file: string, k: string, x: string)
    requires PlainKey(k) && PlainlySpelled(file, k) && x in AppendView(file) && Core(x) == k
    ensures x == k
  {
    ReadSound(AppendLine, Lines(file), x);
    var l :| l in Lines(file) && AppendLine(l) == Some(Binding(x, AppendView(file)[x]));
    ReadersKeepCoreOf(l);
    var a, b := SplitAtEquals(l);
    KeyPartOfLine(a, b);
    AppendLineParts(a, b);
    TrimFixes(k);
  }

  /** appendEnvKey brings in no other spelling of a name. */
  lemma {:induction false} AppendStaysPlain(file: string, x: string, t: string, k: string)
    requires PlainKey(k) && PlainlySpelled(file, k) && PlainKey(x) && '\n' !in t
    ensures PlainlySpelled(Append(file, x, t), k)
  {
    var m := AppendView(file)[x := t];
    AppendedMapIsSingleLine(file, x, t);
    forall l | l in Lines(Append(file, x, t)) && Touches(l, k) ensures KeyPart(l) == k {
      WrittenLines(m, l);
      var y :| y in m && l == Line(y, m[y]);
      if y != x { AppendViewIsClean(file, y); }
      KeyPartOfLine(y, m[y]);
      if y == x { CoreOfPlain(x); } else { OnlyAppendSpelling(file, k, y); }
    }
  }

  /** The texts that a start may write are on one line. */
  predicate WritesLines(file: string, outside: Env, newVm: string, newSecurity: string) {
    '\n' !in newVm && '\n' !in newSecurity && '\n' !in JwtAt(file, outside)
  }

  lemma {:induction false} StartWritesLines(file: string, outside: Env, newVm: string, newSecurity: string)
    requires '\n' !in Getenv(outside, JWT_SECRET) && '\n' !in newVm && '\n' !in newSecurity
    ensures WritesLines(file, outside, newVm, newSecurity)
  {
    LoadedTextIsOneLine(file, outside, JWT_SECRET);
    DefaultJwtIsOneLine();
  }

  lemma {:induction false} DefaultJwtIsOneLine()
    ensures '\n' !in DEFAULT_JWT_SECRET && DEFAULT_JWT_SECRET != ""
  {
  }

  /** Whatever secrets a start writes, it brings in no other spelling of a name. */
  lemma {:induction false} StartStaysPlain(file: string, outside: Env, newVm: string, newSecurity: string, k: string)
    requires PlainKey(k) && PlainlySpelled(file, k) && WritesLines(file, outside, newVm, newSecurity)
    ensures PlainlySpelled(Start(file, outside, newVm, newSecurity).file, k)
  {
    PlainNames();
    var env := Load(Lines(file), outside);
    var file1 := AfterVm(file, Getenv(env, VM_SECRET), newVm);
    if Getenv(env, VM_SECRET) == "" {
      AppendStaysPlain(file, VM_SECRET, newVm, k);
    }
    if Getenv(env, SECURITY_SECRET) == "" {
      AppendStaysPlain(file1, SECURITY_SECRET, newSecurity, k);
      AppendStaysPlain(Append(file1, SECURITY_SECRET, newSecurity), LEGACY_SECRET, JwtAt(file, outside), k);
    }
  }

  /** And it keeps every other line that has no blanks to lose. */
  lemma {:induction false} StartHoldsAs(file: string, outside: Env, newVm: string, newSecurity: string,
                                        k: string, w: string)
    requires PlainKey(k) && !IsSecretName(k) && HeldAs(file, k, k, w) && TrimRight(w) == w
    requires WritesLines(file, outside, newVm, newSecurity)
    ensures HeldAs(Start(file, outside, newVm, newSecurity).file, k, k, w)
  {
    PlainNames();
    var env := Load(Lines(file), outside);
    var file1 := AfterVm(file, Getenv(env, VM_SECRET), newVm);
    if Getenv(env, VM_SECRET) == "" {
      AppendRewrites(file, VM_SECRET, newVm, k, k, w);
    }
    if Getenv(env, SECURITY_SECRET) == "" {
      AppendRewrites(file1, SECURITY_SECRET, newSecurity, k, k, w);
      AppendRewrites(Append(file1, SECURITY_SECRET, newSecurity), LEGACY_SECRET, JwtAt(file, outside), k, k, w);
    }
  }

  lemma {:induction false} LastOfTwo(reader: string -> Option<Binding>, a: string, b: string, k: string, v: string)
    requires reader("") == None && reader(b) == Some(Binding(k, v))
    ensures Getenv(ReadMap(reader, [a, b, ""]), k) == v
  {
  }

  lemma {:induction false} LinesOfTwo(k: string, a: string, b: string)
    requires PlainKey(k) && '\n' !in a && '\n' !in b
    ensures Lines(Join([Line(k, a), Line(k, b)]) + "\n") == [Line(k, a), Line(k, b), ""]
  {
    var ls := [Line(k, a), Line(k, b)];
    assert forall l | l in ls :: l == Line(k, a) || l == Line(k, b);
    LinesOfJoin1(ls);
  }

  lemma {:induction false} SaveReadsTheLast(file: string, k: string, a: string, b: string)
    requires PlainKey(k) && Lines(file) == [Line(k, a), Line(k, b), ""]
    ensures Getenv(SyncView(file), k) == b
  {
    SyncFixes(k, b);
    NoEqualsNoBinding("");
    LastOfTwo(SyncLine, Line(k, a), Line(k, b), k, b);
  }

  lemma {:induction false} StartReadsTheFirst(file: string, k: string, a: string, b: string)
    requires PlainKey(k) && Generated(a) && Lines(file) == [Line(k, a), Line(k, b), ""]
    ensures FirstOffer(Lines(file), k) == a
  {
    TrimFixes(k);
    OfferParts(k, a, k);
    PlainValuesAreTheFixedPoints(a);
    FirstOfferAt(Lines(file), k, 0);
  }

  lemma {:induction false} BothPlainlySpelled(file: string, k: string, a: string, b: string)
    requires PlainKey(k) && Lines(file) == [Line(k, a), Line(k, b), ""]
    ensures PlainlySpelled(file, k)
  {
    KeyPartOfLine(k, a);
    KeyPartOfLine(k, b);
  }

  /** A concrete case: with k=a before k=b the program starts with a, and after one save with b. */
  lemma {:induction false} DuplicateNameChanges(k: string, a: string, b: string, managed: Env, outside: Env)
    requires PlainKey(k) && Generated(a) && Generated(b) && a != b
    requires PlainMap(managed) && k !in managed && Getenv(outside, k) == ""
    ensures var file := Join([Line(k, a), Line(k, b)]) + "\n";
            && Getenv(Load(Lines(file), outside), k) == a
            && Getenv(Load(Lines(Sync(file, managed)), outside), k) != a
  {
    var file := Join([Line(k, a), Line(k, b)]) + "\n";
    LinesOfTwo(k, a, b);
    BothPlainlySpelled(file, k, a, b);
    SaveReadsTheLast(file, k, a, b);
    StartReadsTheFirst(file, k, a, b);
    LoadGet(Lines(file), outside, k);
    SaveKeepsNameIffFirstIsLast(file, managed, k, outside);
    PlainValuesAreTheFixedPoints(b);
  }
}
