/** When a value that SyncEnvFile saved is the one the next start loads.
    SyncEnvFile keeps the blanks around a key and the loader drops them, so a hand-written
    `NAME = value` stays in the file beside the saved `NAME=value` and may win. */
module EnvShadow {
  import opened Text
  import opened EnvFile
  import opened EnvRoundTrip

  /** k is another spelling of name that sorts before it, whatever the values are. */
  predicate Shadows(k: string, name: string) {
    Trim(k) == name && Less(Line(k, ""), Line(name, ""))
  }

  ghost predicate NotShadowed(view: Env, name: string) {
    forall k | k in view && Shadows(k, name) :: Loaded(view[k]) == ""
  }

  ghost predicate NoOtherSpelling(view: Env, name: string) {
    forall k | k in view && k != name && Trim(k) == name :: Loaded(view[k]) == ""
  }

  /** A line of k hides a saved value v of name: an empty value loses to any other spelling, a
      non-empty one to those that sort before it. */
  predicate Hides(k: string, name: string, v: string) {
    k != name && Trim(k) == name && (v == "" || Less(Line(k, ""), Line(name, "")))
  }

  /** An entry that hides v and offers something. */
  predicate Hiding(view: Env, name: string, v: string, k: string) {
    k in view && Hides(k, name, v) && Loaded(view[k]) != ""
  }

  /** The hiding entry that is written first. */
  ghost predicate FirstHider(view: Env, name: string, v: string, k: string) {
    && Hiding(view, name, v, k)
    && forall x | Hiding(view, name, v, x) :: !Less(Line(x, view[x]), Line(k, view[k]))
  }

  /** The text that the next start loads in the place of v, or nothing if v is not hidden. */
  ghost function Hider(view: Env, name: string, v: string): string {
    if k :| FirstHider(view, name, v, k) then Loaded(view[k]) else ""
  }

  lemma {:induction false} ExtendLess(a: string, b: string, p: nat, v: string, w: string)
    requires p < |a| && p < |b| && a[..p] == b[..p] && a[p] != b[p]
    ensures Less(a, b) ==> Less(a + v, b + w)
    ensures !Less(a, b) ==> Less(b + w, a + v)
  {
    assert (a + v)[..p] == a[..p] && (b + w)[..p] == b[..p];
    if a[p] < b[p] {
      LessAt(a + v, b + w, p);
      LessAt(a, b, p);
    } else {
      LessAt(b + w, a + v, p);
      LessAt(b, a, p);
      if Less(a, b) {
        LessTransitive(a, b, a);
        LessIrreflexive(a);
      }
    }
  }

  /** Two spellings of one name differ before the '=' of the shorter one ends. */
  lemma {:induction false} SpellingsDifferEarly(k: string, name: string) returns (p: nat)
    requires k != name && Trim(k) == name && name != ""
    ensures p < |k| + 1 && p < |name| + 1
    ensures Line(k, "")[..p] == Line(name, "")[..p] && Line(k, "")[p] != Line(name, "")[p]
  {
    TrimIsTrimmed(k);
    if k == "" || IsSpace(k[0]) {
      p := 0;
    } else {
      p := |name|;
      assert TrimLeft(k) == k && name <= k;
      TrimRightTail(k);
      assert IsSpace(k[p]);
      assert Line(k, "")[..p] == name == Line(name, "")[..p];
    }
  }

  lemma {:induction false} TrimRightTail(s: string)
    ensures |TrimRight(s)| < |s| ==> IsSpace(s[|TrimRight(s)|])
  {
    if s != "" && IsSpace(s[|s| - 1]) {
      TrimRightTail(s[..|s| - 1]);
    }
  }

  /** The order of two spellings does not depend on the values behind them. */
  lemma {:induction false} SpellingOrder(k: string, name: string, v: string, w: string)
    requires k != name && Trim(k) == name && name != ""
    ensures if Shadows(k, name) then Less(Line(k, v), Line(name, w)) else Less(Line(name, w), Line(k, v))
  {
    var p := SpellingsDifferEarly(k, name);
    ExtendLess(Line(k, ""), Line(name, ""), p, v, w);
    assert Line(k, "") + v == Line(k, v) && Line(name, "") + w == Line(name, w);
  }

  lemma {:induction false} PositionOf(lines: seq<string>, l: string) returns (j: nat)
    requires l in lines
    ensures j < |lines| && lines[j] == l && forall i | 0 <= i < j :: lines[i] != l
  {
    j := 0;
    while lines[j] != l
      invariant j < |lines|
      invariant forall i | 0 <= i < j :: lines[i] != l
      invariant l in lines[j..]
      decreases |lines| - j
    {
      assert lines[j..] == [lines[j]] + lines[j + 1..];
      j := j + 1;
    }
  }

  /** The lines of a rewritten file are sorted, with the empty string after the last newline. */
  lemma {:induction false} WrittenOrder(m: Env, i: nat, j: nat)
    requires SingleLineMap(m)
    requires i < j < |Lines(Written(m))|
    ensures Lines(Written(m))[j] == "" || !Less(Lines(Written(m))[j], Lines(Written(m))[i])
  {
    SortStringsSorts(LinesInOrder(AnyOrder(m), m));
    SplitWritten(m);
  }

  lemma {:induction false} SyncedOffers(text: string, managed: Env, name: string, l: string)
    requires PlainMap(managed) && name in managed
    requires l in Lines(Sync(text, managed)) && Offer(l, name) != ""
    ensures exists k | k in SyncView(text) + managed ::
              && l == Line(k, (SyncView(text) + managed)[k])
              && Offer(l, name) == Loaded((SyncView(text) + managed)[k])
              && (k == name || (k !in managed && k in SyncView(text) && Trim(k) == name))
  {
    var m := SyncView(text) + managed;
    SyncedMapIsSingleLine(text, managed);
    WrittenLines(m, l);
    EmptyLineOffersNothing(name);
    var k :| k in m && l == Line(k, m[k]);
    if k !in managed { SyncViewIsClean(text, k); }
    OfferParts(k, m[k], name);
    TrimFixes(k);
  }

  lemma {:induction false} EmptySaveUnhidden(text: string, managed: Env, name: string)
    requires PlainMap(managed) && name in managed && managed[name] == ""
    requires forall k :: !Hiding(SyncView(text), name, "", k)
    ensures FirstOffer(Lines(Sync(text, managed)), name) == ""
  {
    var lines := Lines(Sync(text, managed));
    forall l | l in lines ensures Offer(l, name) == "" {
      if Offer(l, name) != "" {
        var k := OfferingKey(text, managed, name, l);
      }
    }
    NoOffer(lines, name);
  }

  /** The entry behind a line that offers something, and whether it hides the saved value. */
  lemma {:induction false} OfferingKey(text: string, managed: Env, name: string, l: string) returns (k: string)
    requires PlainMap(managed) && name in managed
    requires l in Lines(Sync(text, managed)) && Offer(l, name) != ""
    ensures var m := SyncView(text) + managed;
            && k in m && l == Line(k, m[k]) && Offer(l, name) == Loaded(m[k])
            && (k == name || (k in SyncView(text) && m[k] == SyncView(text)[k] && k != name && Trim(k) == name))
            && (managed[name] == "" ==> Hiding(SyncView(text), name, "", k))
  {
    SyncedOffers(text, managed, name, l);
    var m := SyncView(text) + managed;
    k :| k in m && l == Line(k, m[k]) && Offer(l, name) == Loaded(m[k])
         && (k == name || (k !in managed && k in SyncView(text) && Trim(k) == name));
  }

  lemma {:induction false} SavedLineIsWritten(text: string, managed: Env, name: string)
    requires PlainMap(managed) && name in managed
    ensures Line(name, managed[name]) in Lines(Sync(text, managed))
  {
    var m := SyncView(text) + managed;
    SyncedMapIsSingleLine(text, managed);
    WrittenLines(m, Line(name, m[name]));
  }

  lemma {:induction false} PlainSaveUnhidden(text: string, managed: Env, name: string)
    requires PlainMap(managed) && name in managed && managed[name] != "" && PlainValue(managed[name])
    requires forall k :: !Hiding(SyncView(text), name, managed[name], k)
    ensures FirstOffer(Lines(Sync(text, managed)), name) == managed[name]
  {
    var w, lines := managed[name], Lines(Sync(text, managed));
    SavedLineIsWritten(text, managed, name);
    OfferParts(name, w, name);
    TrimFixes(name);
    PlainValuesAreTheFixedPoints(w);
    var j := PositionOf(lines, Line(name, w));
    forall i | 0 <= i < j ensures Offer(lines[i], name) == "" {
      NothingOffersBefore(text, managed, name, i, j);
    }
    FirstOfferAt(lines, name, j);
  }

  lemma {:induction false} NothingOffersBefore(text: string, managed: Env, name: string, i: nat, j: nat)
    requires PlainMap(managed) && name in managed && managed[name] != ""
    requires forall k :: !Hiding(SyncView(text), name, managed[name], k)
    requires i < j < |Lines(Sync(text, managed))|
    requires Lines(Sync(text, managed))[j] == Line(name, managed[name]) != Lines(Sync(text, managed))[i]
    ensures Offer(Lines(Sync(text, managed))[i], name) == ""
  {
    var l := Lines(Sync(text, managed))[i];
    if Offer(l, name) != "" {
      var k := OfferingKey(text, managed, name, l);
      var m := SyncView(text) + managed;
      assert !Hiding(SyncView(text), name, managed[name], k);
      SyncedMapIsSingleLine(text, managed);
      WrittenOrder(m, i, j);
      SpellingOrder(k, name, m[k], managed[name]);
    }
  }

  lemma {:induction false} HidingLine(text: string, managed: Env, name: string, v: string, k: string)
    requires PlainMap(managed) && name in managed && Hiding(SyncView(text), name, v, k)
    ensures Line(k, SyncView(text)[k]) in Lines(Sync(text, managed))
    ensures Offer(Line(k, SyncView(text)[k]), name) != ""
  {
    var m := SyncView(text) + managed;
    SyncedMapIsSingleLine(text, managed);
    SyncViewIsClean(text, k);
    if k in managed { TrimFixes(k); }
    WrittenLines(m, Line(k, m[k]));
    OfferParts(k, m[k], name);
  }

  lemma {:induction false} FirstOffering(text: string, managed: Env, name: string, s: string)
    returns (j: nat, k: string)
    requires PlainMap(managed) && name in managed && Hiding(SyncView(text), name, managed[name], s)
    ensures var m, lines := SyncView(text) + managed, Lines(Sync(text, managed));
            && j < |lines| && k in m && lines[j] == Line(k, m[k])
            && FirstOffer(lines, name) == Loaded(m[k]) != ""
            && forall i | 0 <= i < j :: Offer(lines[i], name) == ""
    ensures var m := SyncView(text) + managed;
            && (k == name || (k in SyncView(text) && m[k] == SyncView(text)[k] && k != name && Trim(k) == name))
            && (managed[name] == "" ==> Hiding(SyncView(text), name, "", k))
  {
    var lines := Lines(Sync(text, managed));
    HidingLine(text, managed, name, managed[name], s);
    NoOffer(lines, name);
    j := FirstOfferWitness(lines, name);
    k := OfferingKey(text, managed, name, lines[j]);
  }

  /** Where the value is hidden, the loader takes the first of the hiding entries. */
  lemma {:induction false} FirstHiderWins(text: string, managed: Env, name: string, s: string) returns (k: string)
    requires PlainMap(managed) && name in managed && Hiding(SyncView(text), name, managed[name], s)
    ensures FirstHider(SyncView(text), name, managed[name], k)
    ensures FirstOffer(Lines(Sync(text, managed)), name) == Loaded(SyncView(text)[k])
  {
    var view, v, m := SyncView(text), managed[name], SyncView(text) + managed;
    var j;
    j, k := FirstOffering(text, managed, name, s);
    var value := m[k];
    forall x | Hiding(view, name, v, x) ensures !Less(Line(x, view[x]), Line(k, value)) {
      NotWrittenBefore(text, managed, name, x, j);
    }
    if v != "" {
      HiderIsBefore(name, s, view[s], k, value);
      ShadowIsOther(k, name);
    }
  }

  lemma {:induction false} NotWrittenBefore(text: string, managed: Env, name: string, x: string, j: nat)
    requires PlainMap(managed) && name in managed && Hiding(SyncView(text), name, managed[name], x)
    requires j < |Lines(Sync(text, managed))|
    requires forall i | 0 <= i < j :: Offer(Lines(Sync(text, managed))[i], name) == ""
    ensures !Less(Line(x, SyncView(text)[x]), Lines(Sync(text, managed))[j])
  {
    var lines := Lines(Sync(text, managed));
    SyncedMapIsSingleLine(text, managed);
    HidingLine(text, managed, name, managed[name], x);
    var i := PositionOf(lines, Line(x, SyncView(text)[x]));
    if j < i { WrittenOrder(SyncView(text) + managed, j, i); }
    LessIrreflexive(lines[i]);
  }

  /** Not behind a hider of a non-empty value: neither the name itself nor a spelling that sorts after it. */
  lemma {:induction false} HiderIsBefore(name: string, s: string, a: string, k: string, b: string)
    requires Shadows(s, name) && name != "" && (k == name || Trim(k) == name) && !Less(Line(s, a), Line(k, b))
    ensures Shadows(k, name)
  {
    ShadowIsOther(s, name);
    SpellingOrder(s, name, a, if k == name then b else "");
    if k != name && !Shadows(k, name) {
      SpellingOrder(k, name, b, "");
      LessTransitive(Line(s, a), Line(name, ""), Line(k, b));
    }
  }

  lemma {:induction false} ShadowIsOther(k: string, name: string)
    requires Shadows(k, name)
    ensures k != name
  {
    LessIrreflexive(Line(name, ""));
  }

  lemma {:induction false} SameLineSameKey(text: string, k: string, k': string)
    requires k in SyncView(text) && k' in SyncView(text)
    ensures Line(k, SyncView(text)[k]) == Line(k', SyncView(text)[k']) ==> k == k'
  {
    SyncViewIsClean(text, k);
    SyncViewIsClean(text, k');
    var v, v' := SyncView(text)[k], SyncView(text)[k'];
    FindFirst(k, '=', v);
    FindFirst(k', '=', v');
    assert Line(k, v) == k + ['='] + v && Line(k', v') == k' + ['='] + v';
    assert Line(k, v)[..|k|] == k && Line(k', v')[..|k'|] == k';
  }

  /** The first hider is one entry, so the text it offers is one text. */
  lemma {:induction false} HiderIs(text: string, name: string, v: string, k: string)
    requires FirstHider(SyncView(text), name, v, k)
    ensures Hider(SyncView(text), name, v) == Loaded(SyncView(text)[k]) != ""
  {
    var view := SyncView(text);
    forall x | FirstHider(view, name, v, x) ensures x == k {
      LessTotal(Line(x, view[x]), Line(k, view[k]));
      SameLineSameKey(text, x, k);
    }
  }

  /** What the next start loads of a saved plain value: the value, or the text that hides it. */
  lemma {:induction false} LoadedAfterSave(text: string, managed: Env, name: string, env: Env)
    requires PlainMap(managed) && name in managed && Getenv(env, name) == ""
    requires managed[name] == "" || PlainValue(managed[name])
    ensures var hider := Hider(SyncView(text), name, managed[name]);
            Getenv(Load(Lines(Sync(text, managed)), env), name) == if hider != "" then hider else managed[name]
  {
    var view, v := SyncView(text), managed[name];
    LoadGet(Lines(Sync(text, managed)), env, name);
    if s :| Hiding(view, name, v, s) {
      var k := FirstHiderWins(text, managed, name, s);
      HiderIs(text, name, v, k);
    } else if v == "" {
      EmptySaveUnhidden(text, managed, name);
    } else {
      PlainSaveUnhidden(text, managed, name);
    }
  }

  /** A value is hidden exactly by an entry that hides it and offers something. */
  lemma {:induction false} UnhiddenIff(text: string, name: string, v: string)
    requires PlainKey(name) && '\n' !in v
    ensures Hider(SyncView(text), name, v) == "" <==> forall k :: !Hiding(SyncView(text), name, v, k)
  {
    if s :| Hiding(SyncView(text), name, v, s) {
      var k := FirstHiderWins(text, map[name := v], name, s);
      HiderIs(text, name, v, k);
    }
  }

  /** A saved plain value is the one the next start loads exactly if nothing hides it, or what hides it
      happens to offer the same. */
  lemma {:induction false} SavedValueLoadsIff(text: string, managed: Env, name: string, env: Env)
    requires PlainMap(managed) && name in managed && Getenv(env, name) == ""
    requires managed[name] == "" || PlainValue(managed[name])
    ensures Getenv(Load(Lines(Sync(text, managed)), env), name) == managed[name]
            <==> Hider(SyncView(text), name, managed[name]) in ["", managed[name]]
  {
    LoadedAfterSave(text, managed, name, env);
  }

  /** An empty value is loaded as empty exactly if no other spelling of the name offers anything. */
  lemma {:induction false} EmptySaveLoadsIff(text: string, managed: Env, name: string, env: Env)
    requires PlainMap(managed) && name in managed && managed[name] == "" && Getenv(env, name) == ""
    ensures Getenv(Load(Lines(Sync(text, managed)), env), name) == "" <==> NoOtherSpelling(SyncView(text), name)
  {
    LoadedAfterSave(text, managed, name, env);
    UnhiddenIff(text, name, "");
    assert forall k :: Hiding(SyncView(text), name, "", k) <==>
             k in SyncView(text) && k != name && Trim(k) == name && Loaded(SyncView(text)[k]) != "";
  }

  ghost predicate LoadsAs(text: string, managed: Env, name: string, env: Env, v: string) {
    Getenv(Load(Lines(Sync(text, managed)), env), name) == v
  }

  ghost predicate EverySaveLoads(text: string, managed: Env, name: string, env: Env) {
    forall v | v != "" && PlainValue(v) :: LoadsAs(text, managed[name := v], name, env, v)
  }

  lemma {:induction false} UnshadowedLoads(text: string, managed: Env, name: string, env: Env, v: string)
    requires PlainMap(managed) && PlainKey(name) && Getenv(env, name) == ""
    requires v != "" && PlainValue(v) && NotShadowed(SyncView(text), name)
    ensures LoadsAs(text, managed[name := v], name, env, v)
  {
    NotShadowedIsUnhidden(text, name, v);
    LoadedAfterSave(text, managed[name := v], name, env);
  }

  lemma {:induction false} ShadowLoadsOneValue(text: string, managed: Env, name: string, env: Env, v: string, w: string)
    requires PlainMap(managed) && PlainKey(name) && !NotShadowed(SyncView(text), name)
    requires v != w && PlainValue(v) && PlainValue(w)
    ensures !LoadsAs(text, managed[name := v], name, env, v) || !LoadsAs(text, managed[name := w], name, env, w)
  {
    ShadowHidesEverySave(text, managed[name := v], managed[name := w], name, env);
  }

  lemma {:induction false} UnshadowedLoadsAll(text: string, managed: Env, name: string, env: Env)
    requires PlainMap(managed) && PlainKey(name) && Getenv(env, name) == "" && NotShadowed(SyncView(text), name)
    ensures EverySaveLoads(text, managed, name, env)
  {
    forall v | v != "" && PlainValue(v) ensures LoadsAs(text, managed[name := v], name, env, v) {
      UnshadowedLoads(text, managed, name, env, v);
    }
  }

  lemma {:induction false} TwoPlainValues() returns (v: string, w: string)
    ensures v != "" && w != "" && v != w && PlainValue(v) && PlainValue(w)
  {
    v, w := "a", "b";
  }

  lemma {:induction false} ShadowedLoadsNotAll(text: string, managed: Env, name: string, env: Env)
    requires PlainMap(managed) && PlainKey(name) && !NotShadowed(SyncView(text), name)
    ensures !EverySaveLoads(text, managed, name, env)
  {
    var v, w := TwoPlainValues();
    ShadowLoadsOneValue(text, managed, name, env, v, w);
    assert LoadsAs(text, managed[name := v], name, env, v) && LoadsAs(text, managed[name := w], name, env, w)
           <== EverySaveLoads(text, managed, name, env);
  }

  /** Every non-empty plain value that is saved is loaded, exactly if the file has no shadow of the name. */
  lemma {:induction false} EverySaveLoadsIff(text: string, managed: Env, name: string, env: Env)
    requires PlainMap(managed) && PlainKey(name) && Getenv(env, name) == ""
    ensures EverySaveLoads(text, managed, name, env) <==> NotShadowed(SyncView(text), name)
  {
    if NotShadowed(SyncView(text), name) {
      UnshadowedLoadsAll(text, managed, name, env);
    } else {
      ShadowedLoadsNotAll(text, managed, name, env);
    }
  }

  lemma {:induction false} NotShadowedIsUnhidden(text: string, name: string, v: string)
    requires PlainKey(name) && v != "" && '\n' !in v
    ensures NotShadowed(SyncView(text), name) <==> Hider(SyncView(text), name, v) == ""
  {
    UnhiddenIff(text, name, v);
    forall k ensures Hides(k, name, v) <==> Shadows(k, name) {
      if Shadows(k, name) { ShadowIsOther(k, name); }
    }
    if forall k :: !Hiding(SyncView(text), name, v, k) {
      forall k | k in SyncView(text) && Shadows(k, name) ensures Loaded(SyncView(text)[k]) == "" {
        assert !Hiding(SyncView(text), name, v, k);
      }
    }
  }

  /** Under a shadow the first hider of any value is the first shadow. */
  lemma {:induction false} ShadowHidesAll(view: Env, name: string, v: string, k: string, s: string)
    requires name != "" && FirstHider(view, name, v, k) && s in view && Shadows(s, name) && Loaded(view[s]) != ""
    ensures FirstHider(view, name, "x", k)
  {
    ShadowIsOther(s, name);
    assert Hiding(view, name, v, s);
    HiderIsBefore(name, s, view[s], k, view[k]);
    forall x | Hiding(view, name, "x", x) ensures !Less(Line(x, view[x]), Line(k, view[k])) {
      assert Hiding(view, name, v, x);
    }
  }

  /** Under a shadow the next start loads one text, whatever is saved. */
  lemma {:induction false} ShadowWins(text: string, managed: Env, name: string)
    requires PlainMap(managed) && name in managed && !NotShadowed(SyncView(text), name)
    ensures FirstOffer(Lines(Sync(text, managed)), name) == Hider(SyncView(text), name, "x") != ""
  {
    var view := SyncView(text);
    var s :| s in view && Shadows(s, name) && Loaded(view[s]) != "";
    ShadowIsOther(s, name);
    var k := FirstHiderWins(text, managed, name, s);
    ShadowHidesAll(view, name, managed[name], k, s);
    HiderIs(text, name, "x", k);
  }

  /** A shadowed name ignores every save: two files saved with different values load alike. */
  lemma {:induction false} ShadowHidesEverySave(text: string, saved: Env, saved': Env, name: string, env: Env)
    requires PlainMap(saved) && PlainMap(saved') && name in saved && name in saved'
    requires !NotShadowed(SyncView(text), name)
    ensures Getenv(Load(Lines(Sync(text, saved)), env), name) == Getenv(Load(Lines(Sync(text, saved')), env), name)
  {
    LoadGet(Lines(Sync(text, saved)), env, name);
    LoadGet(Lines(Sync(text, saved')), env, name);
    ShadowWins(text, saved, name);
    ShadowWins(text, saved', name);
  }

  // ---------------------------------------------------------------- a name that is not saved

  /** An entry that spells the name and offers something. */
  predicate Spells(view: Env, name: string, k: string) {
    k in view && Trim(k) == name && Loaded(view[k]) != ""
  }

  ghost predicate FirstSpelling(view: Env, name: string, k: string) {
    && Spells(view, name, k)
    && forall x | Spells(view, name, x) :: !Less(Line(x, view[x]), Line(k, view[k]))
  }

  /** What the next start loads for a name that the save leaves alone. */
  ghost function FirstSpelled(view: Env, name: string): string {
    if k :| FirstSpelling(view, name, k) then Loaded(view[k]) else ""
  }

  lemma {:induction false} SpellingLine(text: string, managed: Env, name: string, k: string)
    requires PlainMap(managed) && PlainKey(name) && name !in managed && Spells(SyncView(text), name, k)
    ensures Line(k, SyncView(text)[k]) in Lines(Sync(text, managed))
    ensures Offer(Line(k, SyncView(text)[k]), name) == Loaded(SyncView(text)[k])
  {
    var m := SyncView(text) + managed;
    SyncedMapIsSingleLine(text, managed);
    SyncViewIsClean(text, k);
    if k in managed { TrimFixes(k); }
    WrittenLines(m, Line(k, m[k]));
    OfferParts(k, m[k], name);
  }

  lemma {:induction false} SpellingOfLine(text: string, managed: Env, name: string, l: string) returns (k: string)
    requires PlainMap(managed) && PlainKey(name) && name !in managed
    requires l in Lines(Sync(text, managed)) && Offer(l, name) != ""
    ensures Spells(SyncView(text), name, k) && l == Line(k, SyncView(text)[k])
    ensures Offer(l, name) == Loaded(SyncView(text)[k])
  {
    var m := SyncView(text) + managed;
    SyncedMapIsSingleLine(text, managed);
    WrittenLines(m, l);
    EmptyLineOffersNothing(name);
    k :| k in m && l == Line(k, m[k]);
    if k in managed { TrimFixes(k); } else { SyncViewIsClean(text, k); }
    OfferParts(k, m[k], name);
  }

  lemma {:induction false} NoSpellingBefore(text: string, managed: Env, name: string, x: string, j: nat)
    requires PlainMap(managed) && PlainKey(name) && name !in managed && Spells(SyncView(text), name, x)
    requires j < |Lines(Sync(text, managed))|
    requires forall i | 0 <= i < j :: Offer(Lines(Sync(text, managed))[i], name) == ""
    ensures !Less(Line(x, SyncView(text)[x]), Lines(Sync(text, managed))[j])
  {
    var lines := Lines(Sync(text, managed));
    SyncedMapIsSingleLine(text, managed);
    SpellingLine(text, managed, name, x);
    var i := PositionOf(lines, Line(x, SyncView(text)[x]));
    if j < i { WrittenOrder(SyncView(text) + managed, j, i); }
    LessIrreflexive(lines[i]);
  }

  lemma {:induction false} FirstSpellingWins(text: string, managed: Env, name: string)
    requires PlainMap(managed) && PlainKey(name) && name !in managed
    requires FirstOffer(Lines(Sync(text, managed)), name) != ""
    ensures FirstOffer(Lines(Sync(text, managed)), name) == FirstSpelled(SyncView(text), name)
  {
    var view, lines := SyncView(text), Lines(Sync(text, managed));
    var j := FirstOfferWitness(lines, name);
    var k := SpellingOfLine(text, managed, name, lines[j]);
    forall x | Spells(view, name, x) ensures !Less(Line(x, view[x]), Line(k, view[k])) {
      NoSpellingBefore(text, managed, name, x, j);
    }
    FirstSpelledIs(text, name, k);
  }

  lemma {:induction false} FirstSpelledIs(text: string, name: string, k: string)
    requires FirstSpelling(SyncView(text), name, k)
    ensures FirstSpelled(SyncView(text), name) == Loaded(SyncView(text)[k])
  {
    var view := SyncView(text);
    forall x | FirstSpelling(view, name, x) ensures x == k {
      LessTotal(Line(x, view[x]), Line(k, view[k]));
      SameLineSameKey(text, x, k);
    }
  }

  /** After a save, a name that is not saved loads as the first of its spellings in sort order. */
  lemma {:induction false} LeftAloneLoads(text: string, managed: Env, name: string, env: Env)
    requires PlainMap(managed) && PlainKey(name) && name !in managed && Getenv(env, name) == ""
    ensures Getenv(Load(Lines(Sync(text, managed)), env), name) == FirstSpelled(SyncView(text), name)
  {
    var view, lines := SyncView(text), Lines(Sync(text, managed));
    LoadGet(lines, env, name);
    if FirstOffer(lines, name) != "" {
      FirstSpellingWins(text, managed, name);
    } else {
      NoOffer(lines, name);
      forall k ensures !Spells(view, name, k) {
        if Spells(view, name, k) { SpellingLine(text, managed, name, k); }
      }
    }
  }

  /** `NAME = value`, as people write it, is such a shadow. */
  lemma {:induction false} SpaceBeforeEqualsShadows(name: string)
    requires PlainKey(name)
    ensures Shadows(name + " ", name)
  {
    TrimRightBlank(name, " ");
    TrimFixes(name);
    assert (name + " ")[0] == name[0];
    var a, b := Line(name + " ", ""), Line(name, "");
    assert a[..|name|] == name == b[..|name|];
    LessAt(a, b, |name|);
  }

  /** A file whose only line is `NAME =x` shadows the name: whatever is saved, the next start loads x. */
  lemma {:induction false} SpacedLineWins(name: string, x: string, file: string, managed: Env)
    requires PlainKey(name) && '\n' !in x && Loaded(x) != "" && file == Join([Line(name + " ", x)]) + "\n"
    requires PlainMap(managed) && name in managed
    ensures !NotShadowed(SyncView(file), name)
    ensures FirstOffer(Lines(Sync(file, managed)), name) == Loaded(x)
  {
    var k := name + " ";
    SpaceBeforeEqualsShadows(name);
    LinesOfJoin1([Line(k, x)]);
    SyncFixes(k, x);
    NoEqualsNoBinding("");
    ViewOfOneLine(k, x);
    assert SyncView(file) == map[k := x];
    ShadowWins(file, managed, name);
    OnlyHider(k, x, name);
  }

  lemma {:induction false} ViewOfOneLine(k: string, x: string)
    requires SyncLine(Line(k, x)) == Some(Binding(k, x)) && SyncLine("") == None
    ensures ReadMap(SyncLine, [Line(k, x)] + [""]) == map[k := x]
  {
    OneMoreLine(SyncLine, [], Line(k, x));
    OneMoreLine(SyncLine, [Line(k, x)], "");
    assert [] + [Line(k, x)] == [Line(k, x)];
  }

  lemma {:induction false} OnlyHider(k: string, x: string, name: string)
    requires Hider(map[k := x], name, "x") != ""
    ensures Hider(map[k := x], name, "x") == Loaded(x)
  {
  }
}
