/** What one rewriting of `.env` does to what each reader later finds there. */
module EnvRoundTrip {
  import opened Text
  import opened EnvFile

  /** A name the program itself uses: every reader keeps it as it is. */
  predicate PlainKey(k: string) {
    && k != "" && Trimmed(k)
    && k[0] != '#' && k[0] != BOM
    && '=' !in k && '\n' !in k && '\0' !in k
  }

  lemma {:induction false} PlainNameIsPlainKey(name: string)
    requires NameChars(name)
    ensures PlainKey(name)
  {
  }

  predicate Quoted(v: string) {
    |v| >= 2 && (v[0] == '"' || v[0] == '\'') && v[|v| - 1] == v[0]
  }

  /** A value that the loader gives back as written. */
  predicate PlainValue(v: string) {
    Trimmed(v) && !Quoted(v) && '\n' !in v && '\0' !in v
  }

  // ---------------------------------------------------------------- what the views contain

  lemma {:induction false} TrimRightTwice(s: string)
    ensures TrimRight(TrimRight(s)) == TrimRight(s)
  {
  }

  lemma {:induction false} AppendLineIsClean(l: string)
    requires '\n' !in l
    ensures match AppendLine(l)
            case None => true
            case Some(b) => b.key != "" && Trimmed(b.key) && '=' !in b.key && '\n' !in b.key
                            && '\n' !in b.val && TrimRight(b.val) == b.val
  {
    if '=' in l {
      var a, b := SplitAtEquals(l);
      AppendLineParts(a, b);
      TrimIsTrimmed(a);
      if TrimLeft(a) != "" { TrimRightKeepsFront(TrimLeft(a)); }
      TrimRightTwice(b);
    } else {
      NoEqualsNoBinding(l);
    }
  }

  lemma {:induction false} AppendViewIsClean(text: string, k: string)
    requires k in AppendView(text)
    ensures k != "" && Trimmed(k) && '=' !in k && '\n' !in k
    ensures '\n' !in AppendView(text)[k] && TrimRight(AppendView(text)[k]) == AppendView(text)[k]
  {
    ReadSound(AppendLine, Lines(text), k);
    var l :| l in Lines(text) && AppendLine(l) == Some(Binding(k, AppendView(text)[k]));
    AppendLineIsClean(l);
  }

  lemma {:induction false} SyncViewIsClean(text: string, k: string)
    requires k in SyncView(text)
    ensures k != "" && '=' !in k && '\n' !in k && '\n' !in SyncView(text)[k]
  {
    ReadSound(SyncLine, Lines(text), k);
    var l :| l in Lines(text) && SyncLine(l) == Some(Binding(k, SyncView(text)[k]));
    if '=' in l {
      var a, b := SplitAtEquals(l);
      SyncLineParts(a, b);
    } else {
      NoEqualsNoBinding(l);
    }
  }

  lemma {:induction false} AppendedMapIsSingleLine(text: string, k: string, v: string)
    requires PlainKey(k) && '\n' !in v
    ensures SingleLineMap(AppendView(text)[k := v])
  {
    forall x | x in AppendView(text) ensures '\n' !in x && '\n' !in AppendView(text)[x] {
      AppendViewIsClean(text, x);
    }
  }

  ghost predicate PlainMap(m: Env) {
    forall k | k in m :: PlainKey(k) && '\n' !in m[k]
  }

  lemma {:induction false} SyncedMapIsSingleLine(text: string, managed: Env)
    requires PlainMap(managed)
    ensures SingleLineMap(SyncView(text) + managed)
  {
    forall x | x in SyncView(text) ensures '\n' !in x && '\n' !in SyncView(text)[x] {
      SyncViewIsClean(text, x);
    }
  }

  // ---------------------------------------------------------------- each rewriter against its own reader

  lemma {:induction false} AppendFixes(k: string, v: string)
    requires k != "" && Trimmed(k) && '=' !in k
    ensures AppendLine(Line(k, v)) == Some(Binding(k, TrimRight(v)))
  {
    AppendLineParts(k, v);
    TrimFixes(k);
  }

  /** appendEnvKey is map update on what it reads; only outer blanks on the right are lost. */
  lemma {:induction false} AppendIsUpdate(text: string, k: string, v: string)
    requires PlainKey(k) && '\n' !in v
    ensures AppendView(Append(text, k, v)) == AppendView(text)[k := TrimRight(v)]
  {
    var m := AppendView(text)[k := v];
    var n := AppendView(text)[k := TrimRight(v)];
    AppendedMapIsSingleLine(text, k, v);
    forall x | x in m ensures AppendLine(Line(x, m[x])) == Some(Binding(x, n[x])) {
      if x != k { AppendViewIsClean(text, x); }
      AppendFixes(x, m[x]);
    }
    NoEqualsNoBinding("");
    ReadBack(AppendLine, m, n);
  }

  lemma {:induction false} AppendIsIdempotent(text: string, k: string, v: string)
    requires PlainKey(k) && '\n' !in v
    ensures Append(Append(text, k, v), k, v) == Append(text, k, v)
  {
    AppendIsUpdate(text, k, v);
    UpdateTwice(AppendView(text), k, TrimRight(v), v);
  }

  lemma {:induction false} UpdateTwice(m: Env, k: string, v: string, w: string)
    ensures m[k := v][k := w] == m[k := w]
  {
  }

  lemma {:induction false} SyncFixes(k: string, v: string)
    requires k != "" && k[0] != BOM && '=' !in k
    ensures SyncLine(Line(k, v)) == Some(Binding(k, v))
  {
    SyncLineParts(k, v);
  }

  function TotalLength(keys: seq<string>): nat {
    if keys == [] then 0 else |keys[0]| + TotalLength(keys[1..])
  }

  lemma {:induction false} KeyWithinTotal(keys: seq<string>, k: string)
    requires k in keys
    ensures |k| <= TotalLength(keys)
  {
    if keys[0] != k { KeyWithinTotal(keys[1..], k); }
  }

  ghost predicate MarkedKey(k: string) {
    k != "" && k[0] == BOM
  }

  /** No finite map is closed under putting one more mark in front of a marked key. */
  lemma {:induction false} MarksCannotGrow(m: Env, keys: seq<string>, k: string)
    requires Enumerates(keys, m) && k in m && MarkedKey(k)
    requires forall x | x in m && MarkedKey(x) :: [BOM] + x in m
    ensures false
    decreases TotalLength(keys) - |k|
  {
    var k' := [BOM] + k;
    assert k' in keys;
    KeyWithinTotal(keys, k');
    MarksCannotGrow(m, keys, k');
  }

  lemma {:induction false} MarkedKeyHadTwoMarks(a: string, b: string, k: string)
    requires '=' !in a && MarkedKey(k)
    requires SyncLine(Line(a, b)).Some? && SyncLine(Line(a, b)).value.key == k
    ensures a == [BOM] + k
  {
    SyncLineParts(a, b);
    assert a == [a[0]] + a[1..];
  }

  lemma {:induction false} MarkedKeyComesFromTwoMarks(m: Env, k: string)
    requires SingleLineMap(m) && forall x | x in m :: '=' !in x
    requires MarkedKey(k) && k in ReadMap(SyncLine, Lines(Written(m)))
    ensures [BOM] + k in m
  {
    var lines := Lines(Written(m));
    ReadSound(SyncLine, lines, k);
    var l :| l in lines && SyncLine(l) == Some(Binding(k, ReadMap(SyncLine, lines)[k]));
    WrittenLines(m, l);
    NoEqualsNoBinding("");
    var x :| x in m && l == Line(x, m[x]);
    MarkedKeyHadTwoMarks(x, m[x], k);
  }

  /** SyncEnvFile sets the managed names and keeps every other key and value it reads,
      exactly when no line of the file starts with two byte order marks. */
  lemma {:induction false} SyncIsUpdate(text: string, managed: Env)
    requires PlainMap(managed)
    ensures SyncView(Sync(text, managed)) == SyncView(text) + managed
            <==> forall k | k in SyncView(text) :: !MarkedKey(k)
  {
    var m := SyncView(text) + managed;
    SyncedMapIsSingleLine(text, managed);
    forall x | x in m ensures x != "" && '=' !in x {
      if x !in managed { SyncViewIsClean(text, x); }
    }
    if k :| k in SyncView(text) && MarkedKey(k) {
      if SyncView(Sync(text, managed)) == m {
        forall x | x in m && MarkedKey(x) ensures [BOM] + x in m {
          MarkedKeyComesFromTwoMarks(m, x);
        }
        MarksCannotGrow(m, AnyOrder(m), k);
      }
    } else {
      forall x | x in m ensures SyncLine(Line(x, m[x])) == Some(Binding(x, m[x])) {
        assert x in managed || x in SyncView(text);
        SyncFixes(x, m[x]);
      }
      NoEqualsNoBinding("");
      ReadBack(SyncLine, m, m);
    }
  }

  // ---------------------------------------------------------------- the loader

  /** The value a line offers to the loader for k, "" if it offers none. */
  function Offer(raw: string, k: string): string {
    match LoadLine(raw)
    case None => ""
    case Some(b) => if b.key == k && SetenvAccepts(k, b.val) then b.val else ""
  }

  function Offers(k: string): string -> string {
    raw => Offer(raw, k)
  }

  function FirstOffer(lines: seq<string>, k: string): string {
    FirstNonEmpty(Offers(k), lines)
  }

  /** The loader keeps a value from outside, else takes the first non-empty line. */
  lemma {:induction false} LoadGet(lines: seq<string>, env: Env, k: string)
    ensures Getenv(Load(lines, env), k) ==
            if Getenv(env, k) != "" then Getenv(env, k) else FirstOffer(lines, k)
  {
    if lines != [] {
      LoadGet(lines[..|lines| - 1], env, k);
      LoadStepGet(Load(lines[..|lines| - 1], env), lines[|lines| - 1], k);
    }
  }

  lemma {:induction false} LoadStepGet(env: Env, raw: string, k: string)
    ensures Getenv(LoadStep(env, raw), k) == if Getenv(env, k) != "" then Getenv(env, k) else Offer(raw, k)
  {
  }

  lemma {:induction false} EmptyFileLoadsNothing(outside: Env)
    ensures Load(Lines(""), outside) == outside
  {
    assert Lines("") == [""];
    NoEqualsNoBinding("");
  }

  lemma {:induction false} FirstOfferAt(lines: seq<string>, k: string, j: nat)
    requires j < |lines| && Offer(lines[j], k) != ""
    requires forall i | 0 <= i < j :: Offer(lines[i], k) == ""
    ensures FirstOffer(lines, k) == Offer(lines[j], k)
  {
    FirstNonEmptyAt(Offers(k), lines, j);
  }

  lemma {:induction false} NoOffer(lines: seq<string>, k: string)
    ensures FirstOffer(lines, k) == "" <==> forall l | l in lines :: Offer(l, k) == ""
  {
    NoneNonEmpty(Offers(k), lines);
  }

  lemma {:induction false} FirstOfferWitness(lines: seq<string>, k: string) returns (j: nat)
    requires FirstOffer(lines, k) != ""
    ensures j < |lines| && Offer(lines[j], k) == FirstOffer(lines, k)
    ensures forall i | 0 <= i < j :: Offer(lines[i], k) == ""
  {
    j := FirstNonEmptyWitness(Offers(k), lines);
    forall i | 0 <= i < j ensures Offer(lines[i], k) == "" {
      assert Offers(k)(lines[i]) == "";
    }
  }

  /** If every line for k that offers anything offers v, the loader takes v. */
  lemma {:induction false} OneOffer(lines: seq<string>, k: string, l: string, v: string)
    requires l in lines && Offer(l, k) == v
    requires forall x | x in lines :: Offer(x, k) == v || Offer(x, k) == ""
    ensures FirstOffer(lines, k) == v
  {
    NoOffer(lines, k);
    if FirstOffer(lines, k) != "" {
      var j := FirstOfferWitness(lines, k);
    }
  }

  /** What is left in the environment of a value printed on a line of its own. */
  function Loaded(v: string): string {
    var w := Unquote(Trim(v));
    if '\0' in w then "" else w
  }

  lemma {:induction false} OfferParts(a: string, b: string, k: string)
    requires PlainKey(k) && '=' !in a
    ensures Offer(Line(a, b), k) ==
            if Trim(a) == k then Loaded(b) else ""
  {
    LoadLineParts(a, b);
    if Trim(a) == k {
      assert TrimLeft(a)[0] == k[0];
    }
  }

  lemma {:induction false} OfferIsSingleLine(raw: string, k: string)
    requires '\n' !in raw
    ensures '\n' !in Offer(raw, k)
  {
    if '=' in raw {
      var a, b := SplitAtEquals(raw);
      LoadLineParts(a, b);
      TrimIsTrimmed(b);
    } else {
      NoEqualsNoBinding(raw);
    }
  }

  lemma {:induction false} FirstOfferIsSingleLine(text: string, k: string)
    ensures '\n' !in FirstOffer(Lines(text), k)
  {
    var lines := Lines(text);
    if FirstOffer(lines, k) != "" {
      var j := FirstOfferWitness(lines, k);
      OfferIsSingleLine(lines[j], k);
    }
  }

  lemma {:induction false} LoadedTextIsOneLine(file: string, outside: Env, n: string)
    requires '\n' !in Getenv(outside, n)
    ensures '\n' !in Getenv(Load(Lines(file), outside), n)
  {
    LoadGet(Lines(file), outside, n);
    FirstOfferIsSingleLine(file, n);
  }

  lemma {:induction false} EmptyLineOffersNothing(k: string)
    ensures Offer("", k) == ""
  {
  }

  /** Which values survive being printed on one line and loaded again. */
  lemma {:induction false} PlainValuesAreTheFixedPoints(v: string)
    requires '\n' !in v
    ensures Loaded(v) == v <==> v == "" || PlainValue(v)
  {
    TrimFixes(v);
    TrimIsShorter(v);
  }

  /** A text in quotes is loaded without them, blanks around it aside, whatever it is: it may hold blanks
      at its ends, or quotes again. */
  lemma {:induction false} QuotedLoads(q: char, v: string, a: string, b: string)
    requires (q == '"' || q == '\'') && '\0' !in v && AllSpace(a) && AllSpace(b)
    ensures Loaded(a + ([q] + v + [q]) + b) == v
  {
    var w := [q] + v + [q];
    TrimLeftBlank(a, w + b);
    assert a + w + b == a + (w + b);
    assert (w + b)[0] == q;
    TrimRightBlank(w, b);
    assert Trim(a + w + b) == w;
    UnquoteParts(w);
    assert w[1..|w| - 1] == v;
  }

  /** Quotes that do not match, or a quote alone, stay. */
  lemma {:induction false} OtherQuotesStay(v: string)
    requires Trimmed(v) && '\0' !in v && (|v| < 2 || v[0] != v[|v| - 1])
    ensures Loaded(v) == v
  {
    TrimFixes(v);
    UnquoteParts(v);
  }

  /** A line k="v" or k='v', the only one that offers anything for k, gives k the text between the quotes. */
  lemma {:induction false} QuotedLineLoads(file: string, k: string, q: char, v: string, outside: Env)
    requires PlainKey(k) && (q == '"' || q == '\'') && '\0' !in v && Getenv(outside, k) == ""
    requires Line(k, [q] + v + [q]) in Lines(file)
    requires forall l | l in Lines(file) :: l == Line(k, [q] + v + [q]) || Offer(l, k) == ""
    ensures Getenv(Load(Lines(file), outside), k) == v
  {
    var w := [q] + v + [q];
    QuotedLoads(q, v, "", "");
    assert "" + w + "" == w;
    TrimFixes(k);
    OfferParts(k, w, k);
    OneOffer(Lines(file), k, Line(k, w), v);
    LoadGet(Lines(file), outside, k);
  }

  /** What a process may find in its environment: a name without '=' and NUL, a text without NUL. */
  predicate LegalVariable(k: string, v: string) {
    k != "" && '=' !in k && '\0' !in k && '\0' !in v
  }

  /** The loader adds legal variables only, and changes no variable that has a text. */
  lemma {:induction false} LoadedAreLegal(lines: seq<string>, env: Env, k: string)
    ensures k in env ==> k in Load(lines, env)
    ensures k in env && env[k] != "" ==> Load(lines, env)[k] == env[k]
    ensures k in Load(lines, env) && !(k in env && env[k] == Load(lines, env)[k]) ==>
              LegalVariable(k, Load(lines, env)[k])
  {
    if lines != [] {
      LoadedAreLegal(lines[..|lines| - 1], env, k);
    }
  }

  lemma {:induction false} TrimIsShorter(v: string)
    ensures |Trim(v)| <= |v|
    ensures |Trim(v)| == |v| ==> Trim(v) == v
  {
    TrimLeftIsShorter(v);
  }

  lemma {:induction false} TrimLeftIsShorter(v: string)
    ensures |TrimLeft(v)| <= |v|
    ensures |TrimLeft(v)| == |v| ==> TrimLeft(v) == v
  {
    if v != "" && IsSpace(v[0]) {
      TrimLeftIsShorter(v[1..]);
    }
  }

  lemma {:induction false} TrimmedKeyOffer(m: Env, k: string, l: string)
    requires SingleLineMap(m) && forall x | x in m :: Trimmed(x) && '=' !in x
    requires PlainKey(k) && l in Lines(Written(m)) && Offer(l, k) != ""
    ensures k in m && Offer(l, k) == Loaded(m[k])
  {
    WrittenLines(m, l);
    EmptyLineOffersNothing(k);
    var x :| x in m && l == Line(x, m[x]);
    OfferParts(x, m[x], k);
    TrimFixes(x);
  }

  /** From a file whose keys carry no blanks the loader takes the entry of the name itself. */
  lemma {:induction false} TrimmedKeysLoad(m: Env, k: string)
    requires SingleLineMap(m) && forall x | x in m :: Trimmed(x) && '=' !in x
    requires PlainKey(k)
    ensures FirstOffer(Lines(Written(m)), k) == if k in m then Loaded(m[k]) else ""
  {
    var lines := Lines(Written(m));
    forall l | l in lines && Offer(l, k) != "" ensures k in m && Offer(l, k) == Loaded(m[k]) {
      TrimmedKeyOffer(m, k, l);
    }
    if k in m {
      WrittenLines(m, Line(k, m[k]));
      OfferParts(k, m[k], k);
      TrimFixes(k);
      OneOffer(lines, k, Line(k, m[k]), Loaded(m[k]));
    } else {
      NoOffer(lines, k);
    }
  }

  /** After appendEnvKey a restart finds k with the value just written, and every other name with
      the value that appendEnvKey had read for it. */
  lemma {:induction false} LoadAfterAppend(text: string, k: string, v: string, name: string, env: Env)
    requires PlainKey(k) && PlainKey(name) && '\n' !in v && Getenv(env, name) == ""
    ensures Getenv(Load(Lines(Append(text, k, v)), env), name) ==
            if name == k then Loaded(v) else Loaded(Getenv(AppendView(text), name))
  {
    var m := AppendView(text)[k := v];
    LoadGet(Lines(Append(text, k, v)), env, name);
    AppendedMapIsSingleLine(text, k, v);
    forall x | x in m ensures Trimmed(x) && '=' !in x {
      if x != k { AppendViewIsClean(text, x); }
    }
    TrimmedKeysLoad(m, name);
  }

  /** appendEnvKey, then a restart: the value comes back exactly when it is empty or plain,
      whatever the file held before. */
  lemma {:induction false} AppendThenLoad(text: string, k: string, v: string, env: Env)
    requires PlainKey(k) && Getenv(env, k) == ""
    ensures Getenv(Load(Lines(Append(text, k, v)), env), k) == v <==> v == "" || PlainValue(v)
  {
    if '\n' in v {
      LoadGet(Lines(Append(text, k, v)), env, k);
      FirstOfferIsSingleLine(Append(text, k, v), k);
    } else {
      LoadAfterAppend(text, k, v, k, env);
      PlainValuesAreTheFixedPoints(v);
    }
  }
}
