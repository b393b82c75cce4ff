/** The settings over whole runs of the panel: both stores and the running configuration, through any
    number of restarts, edits with their saves, relocations of the LXC directory, and JWT rotations. */
module SettingsRuns {
  import opened Text
  import opened EnvFile
  import opened EnvRoundTrip
  import opened EnvShadow
  import opened SettingsTable
  import opened Decimal
  import opened Settings
  import opened ConfigStore
  import S = Secrets

  /** The secrets with the .env file, the running configuration, and the settings table. */
  datatype Site = Site(secrets: S.State, cfg: Config, db: Table)

  /** A save edits some fields of the running configuration and persists all of it. A relocation edits two
      fields, writes their rows, and persists all of the configuration to the file. */
  datatype Event =
    | Restart(outside: Env, newVm: string, newSecurity: string)
    | Save(edits: map<Key, Value>)
    | Relocate(path: string, importDir: string)
    | RotateJwt(secret: string)

  function Edited(cfg: Config, edits: map<Key, Value>, k: Key): Value {
    if k in edits then edits[k] else cfg(k)
  }

  function Moved(path: string, importDir: string): map<Key, Value> {
    map[Lxc(LxcLxcPath) := Str(path), Lxc(LxcTemplateImportDir) := Str(importDir)]
  }

  /** The fields that an event edits. */
  function Edits(e: Event): map<Key, Value> {
    match e
    case Save(edits) => edits
    case Relocate(path, importDir) => Moved(path, importDir)
    case _ => map[]
  }

  ghost predicate SavedFile(cfg: Config, before: S.State, now: S.State) {
    exists managed :: ManagedLines(cfg, managed) && now == S.Step(before, S.Save(managed))
  }

  ghost predicate Step(p: Site, e: Event, p': Site) {
    match e
    case Restart(outside, newVm, newSecurity) =>
      && p'.secrets == S.Start(p.secrets.file, outside, newVm, newSecurity)
      && StartedFields(p'.cfg, p.secrets.file, p.db, outside)
      && p'.db == p.db
    case Save(edits) =>
      && (forall k :: p'.cfg(k) == Edited(p.cfg, edits, k))
      && SavedFile(p'.cfg, p.secrets, p'.secrets)
      && SavedTable(p'.cfg, p.db, p'.db)
    case Relocate(path, importDir) =>
      && (forall k :: p'.cfg(k) == Edited(p.cfg, Moved(path, importDir), k))
      && SavedFile(p'.cfg, p.secrets, p'.secrets)
      && p'.db == p.db[Lxc(LxcLxcPath) := path][Lxc(LxcTemplateImportDir) := importDir]
    case RotateJwt(secret) =>
      && p'.secrets == S.Step(p.secrets, S.RotateJwt(secret))
      && (forall k :: p'.cfg(k) == p.cfg(k))
      && p'.db == p.db
  }

  // ---------------------------------------------------------------- the methods take these steps

  ghost function SiteOf(c: Console): Site
    reads c
  {
    Site(c.Secret(), c.cfg, c.db)
  }

  method RestartConsole(c: Console, outside: Env, newVm: string, newSecurity: string)
    modifies c
    ensures Step(old(SiteOf(c)), Restart(outside, newVm, newSecurity), SiteOf(c))
  {
    c.Start(outside, newVm, newSecurity);
  }

  /** Set the edited fields, then persistSettings. */
  method SaveConsole(c: Console, edits: map<Key, Value>)
    modifies c
    ensures Step(old(SiteOf(c)), Save(edits), SiteOf(c))
  {
    var before := c.cfg;
    c.cfg := k => Edited(before, edits, k);
    ghost var managed := c.PersistSettings();
    assert SiteOf(c).secrets == S.Step(old(SiteOf(c)).secrets, S.Save(managed));
  }

  /** persistLxcPaths. */
  method RelocateConsole(c: Console, path: string, importDir: string)
    modifies c
    ensures Step(old(SiteOf(c)), Relocate(path, importDir), SiteOf(c))
  {
    var before := c.cfg;
    c.cfg := k => Edited(before, Moved(path, importDir), k);
    c.db := c.db[Lxc(LxcLxcPath) := path];
    c.db := c.db[Lxc(LxcTemplateImportDir) := importDir];
    ghost var managed := c.SyncEnvFile();
    assert SiteOf(c).secrets == S.Step(old(SiteOf(c)).secrets, S.Save(managed));
  }

  /** RotateJWTSecret with the secret it drew. */
  method RotateConsole(c: Console, secret: string)
    modifies c
    ensures Step(old(SiteOf(c)), RotateJwt(secret), SiteOf(c))
  {
    c.RotateJwt(secret);
  }

  // ---------------------------------------------------------------- every state is sound

  /** The texts passed in for settings and for the JWT secret are on one line. */
  ghost predicate OneLineTexts(outside: Env) {
    && (forall k | InitName(k).Some? :: '\n' !in Getenv(outside, InitName(k).value))
    && '\n' !in Getenv(outside, S.JWT_SECRET)
  }

  ghost predicate OneLineRows(db: Table) {
    forall k | k in db :: '\n' !in db[k]
  }

  ghost predicate Sound(p: Site) {
    GoodFields(p.cfg) && OneLineRows(p.db)
  }

  ghost predicate GoodEdits(edits: map<Key, Value>) {
    forall k | k in edits :: GoodField(k, edits[k])
  }

  /** The texts that an event brings in are on one line, and edits are of the field's kind. */
  ghost predicate Allowed(e: Event) {
    match e
    case Restart(outside, newVm, newSecurity) => OneLineTexts(outside) && '\n' !in newVm && '\n' !in newSecurity
    case RotateJwt(secret) => '\n' !in secret
    case _ => GoodEdits(Edits(e))
  }

  ghost predicate Legal(p: Site, e: Event, p': Site) {
    Step(p, e, p') && Allowed(e)
  }

  lemma {:induction false} ReadAsFits(default: Value, text: string)
    requires Fits(default, default) && '\n' !in text
    ensures Fits(default, ReadAs(default, text))
  {
  }

  lemma {:induction false} RuledFits(rule: DbRule, default: Value, current: Value, text: string)
    requires RuleFits(rule, default) && Fits(default, current) && '\n' !in text
    ensures Fits(default, ApplyRule(rule, current, text))
  {
  }

  lemma {:induction false} DefaultInFits(k: Key, env: Env)
    requires '\n' !in TemplateDirIn(env)
    ensures Fits(DefaultIn(k, env), DefaultIn(k, env))
    ensures forall v :: Fits(DefaultIn(k, env), v) == Fits(Default(k), v)
  {
    DefaultsAreGood(k);
  }

  lemma {:induction false} TemplateDirIsOneLine(file: string, outside: Env)
    requires OneLineTexts(outside)
    ensures '\n' !in TemplateDirIn(Load(Lines(file), outside))
  {
    DirsAreOneLine();
    assert InitName(Image(TemplateDir)) == Some("KVM_TEMPLATE_DIR");
    LoadedTextIsOneLine(file, outside, "KVM_TEMPLATE_DIR");
  }

  lemma {:induction false} DefaultsAreGood(k: Key)
    ensures GoodField(k, Default(k))
  {
    DefaultsArePlain(k);
  }

  lemma {:induction false} InitFieldIsGood(k: Key, file: string, outside: Env)
    requires OneLineTexts(outside)
    ensures GoodField(k, InitField(k, Load(Lines(file), outside)))
  {
    var env := Load(Lines(file), outside);
    DefaultsAreGood(k);
    TemplateDirIsOneLine(file, outside);
    DefaultInFits(k, env);
    if InitName(k).Some? {
      LoadedTextIsOneLine(file, outside, InitName(k).value);
      ReadAsFits(DefaultIn(k, env), Getenv(env, InitName(k).value));
    }
  }

  lemma {:induction false} StartedFieldIsGood(k: Key, file: string, db: Table, outside: Env)
    requires OneLineTexts(outside) && OneLineRows(db)
    ensures GoodField(k, StartField(k, file, db, outside))
  {
    var env := Load(Lines(file), outside);
    InitFieldIsGood(k, file, outside);
    RuleFitsKind(k);
    if k in db {
      RuledFits(Rule(k), Default(k), InitField(k, env), db[k]);
    }
  }

  lemma {:induction false} SavedRowsAreOneLine(cfg: Config, db: Table, db': Table)
    requires GoodFields(cfg) && OneLineRows(db) && SavedTable(cfg, db, db')
    ensures OneLineRows(db')
  {
    forall k | k in db' ensures '\n' !in db'[k] {
      if Exported(k) {
        assert GoodField(k, cfg(k));
        if !cfg(k).Str? { ShownNumbersArePlain(cfg(k)); }
      }
    }
  }

  lemma {:induction false} EditedIsGood(cfg: Config, edits: map<Key, Value>, cfg': Config)
    requires GoodFields(cfg) && GoodEdits(edits) && forall k :: cfg'(k) == Edited(cfg, edits, k)
    ensures GoodFields(cfg')
  {
  }

  lemma {:induction false} StepIsSound(p: Site, e: Event, p': Site)
    requires Sound(p) && Legal(p, e, p')
    ensures Sound(p')
  {
    match e
    case Restart(outside, newVm, newSecurity) =>
      forall k | Exported(k) ensures GoodField(k, p'.cfg(k)) {
        StartedFieldIsGood(k, p.secrets.file, p.db, outside);
      }
    case Save(edits) =>
      EditedIsGood(p.cfg, edits, p'.cfg);
      SavedRowsAreOneLine(p'.cfg, p.db, p'.db);
    case Relocate(path, importDir) => RelocationIsSound(p, path, importDir, p');
    case RotateJwt(secret) =>
      forall k | Exported(k) ensures GoodField(k, p'.cfg(k)) {
        assert p'.cfg(k) == p.cfg(k);
      }
  }

  lemma {:induction false} MovedAreOneLine(path: string, importDir: string)
    requires GoodEdits(Moved(path, importDir))
    ensures '\n' !in path && '\n' !in importDir
  {
    assert Moved(path, importDir)[Lxc(LxcLxcPath)] == Str(path);
    assert Moved(path, importDir)[Lxc(LxcTemplateImportDir)] == Str(importDir);
  }

  lemma {:induction false} RelocationIsSound(p: Site, path: string, importDir: string, p': Site)
    requires Sound(p) && Legal(p, Relocate(path, importDir), p')
    ensures Sound(p')
  {
    EditedIsGood(p.cfg, Moved(path, importDir), p'.cfg);
    MovedAreOneLine(path, importDir);
  }

  // ---------------------------------------------------------------- a value in both stores

  ghost predicate InFile(file: string, k: Key, v: Value) {
    EnvName(k).Some? ==> S.HeldAs(file, EnvName(k).value, EnvName(k).value, Show(v))
  }

  /** Both stores hold v for k. */
  ghost predicate Stored(file: string, db: Table, k: Key, v: Value) {
    InFile(file, k, v) && RowFor(db, k, v)
  }

  ghost predicate Kept(p: Site, k: Key, v: Value) {
    p.cfg(k) == v && Stored(p.secrets.file, p.db, k, v)
  }

  /** A save takes a name over, whatever values its lines had. */
  lemma {:induction false} SyncTakesOver(file: string, managed: Env, k: string)
    requires PlainKey(k) && PlainMap(managed) && k in managed && S.PlainlySpelled(file, k)
    ensures S.HeldAs(Sync(file, managed), k, k, managed[k])
  {
    TrimFixes(k);
    var m := SyncView(file) + managed;
    SyncedMapIsSingleLine(file, managed);
    WrittenLines(m, Line(k, m[k]));
    forall l | l in Lines(Sync(file, managed)) && S.Touches(l, k) ensures l == Line(k, managed[k]) {
      SyncedLine(file, managed, k, l);
    }
  }

  lemma {:induction false} SyncedLine(file: string, managed: Env, k: string, l: string)
    requires PlainKey(k) && PlainMap(managed) && k in managed && S.PlainlySpelled(file, k)
    requires l in Lines(Sync(file, managed)) && S.Touches(l, k)
    ensures l == Line(k, managed[k])
  {
    var m := SyncView(file) + managed;
    SyncedMapIsSingleLine(file, managed);
    WrittenLines(m, l);
    var x :| x in m && l == Line(x, m[x]);
    if x in managed {
      S.CoreOfPlain(x);
    } else {
      SyncViewIsClean(file, x);
    }
    S.KeyPartOfLine(x, m[x]);
    if x !in managed { S.OnlySpelling(file, k, x); }
  }

  lemma {:induction false} HeldIsPlain(file: string, k: string, w: string)
    requires PlainKey(k) && S.HeldAs(file, k, k, w)
    ensures S.PlainlySpelled(file, k)
  {
    S.KeyPartOfLine(k, w);
  }

  lemma {:induction false} JwtSecretIsUnmanaged()
    ensures KeyOf(S.JWT_SECRET).None?
  {
  }

  /** The variables of the settings are plain names, and not those of the secrets. */
  lemma {:induction false} VariableIsPlain(k: Key)
    requires EnvName(k).Some?
    ensures PlainKey(EnvName(k).value) && EnvName(k).value != S.JWT_SECRET && !S.IsSecretName(EnvName(k).value)
  {
    NamesArePlain(k);
    PlainNameIsPlainKey(EnvName(k).value);
    NameIsOwn(k);
    JwtSecretIsUnmanaged();
    VmSecretIsUnmanaged();
    SecuritySecretIsUnmanaged();
    LegacySecretIsUnmanaged();
  }

  /** The file spells the variable of k in one way only. */
  ghost predicate OneSpelling(file: string, k: Key) {
    EnvName(k).Some? ==> S.PlainlySpelled(file, EnvName(k).value)
  }

  lemma {:induction false} SaveInFile(cfg: Config, file: string, managed: Env, k: Key)
    requires GoodFields(cfg) && ManagedLines(cfg, managed) && Exported(k) && OneSpelling(file, k)
    ensures InFile(Sync(file, managed), k, cfg(k))
  {
    if EnvName(k).Some? {
      GoodIsOneLine(cfg);
      ManagedIsPlain(cfg, managed);
      ManagedEntry(cfg, managed, k);
      VariableIsPlain(k);
      SyncTakesOver(file, managed, EnvName(k).value);
    }
  }

  lemma {:induction false} SavedInFile(cfg: Config, before: S.State, now: S.State, k: Key)
    requires GoodFields(cfg) && SavedFile(cfg, before, now) && Exported(k) && OneSpelling(before.file, k)
    ensures InFile(now.file, k, cfg(k))
  {
    var managed :| ManagedLines(cfg, managed) && now == S.Step(before, S.Save(managed));
    SaveInFile(cfg, before.file, managed, k);
  }

  /** A save stores what the running configuration says, in both stores. */
  lemma {:induction false} SaveStores(p: Site, edits: map<Key, Value>, p': Site, k: Key)
    requires Sound(p) && Legal(p, Save(edits), p') && Exported(k)
    requires OneSpelling(p.secrets.file, k)
    ensures Kept(p', k, p'.cfg(k))
  {
    StepIsSound(p, Save(edits), p');
    SavedInFile(p'.cfg, p.secrets, p'.secrets, k);
    SavedRow(p'.cfg, p.db, p'.db, k);
  }

  /** A relocation stores its own two settings in both stores, and keeps what they hold of the others. */
  lemma {:induction false} RelocationStores(p: Site, path: string, importDir: string, p': Site, k: Key)
    requires Sound(p) && Legal(p, Relocate(path, importDir), p') && Exported(k)
    requires OneSpelling(p.secrets.file, k)
    requires k in Moved(path, importDir) || RowFor(p.db, k, p.cfg(k))
    ensures Kept(p', k, p'.cfg(k))
  {
    RelocationIsSound(p, path, importDir, p');
    SavedInFile(p'.cfg, p.secrets, p'.secrets, k);
    assert p'.cfg(k) == Edited(p.cfg, Moved(path, importDir), k);
    if k in Moved(path, importDir) { MovedRow(p.db, path, importDir, k); }
  }

  lemma {:induction false} MovedRow(db: Table, path: string, importDir: string, k: Key)
    requires k in Moved(path, importDir)
    ensures RowFor(db[Lxc(LxcLxcPath) := path][Lxc(LxcTemplateImportDir) := importDir], k, Moved(path, importDir)[k])
  {
  }

  ghost predicate PlainSetting(k: Key, v: Value) {
    Exported(k) && GoodField(k, v) && PlainField(v)
  }

  /** The text that a start finds over a stored value: what is passed in from outside, and for a variable
      that is not saved also what is in the file. */
  function TextAt(k: Key, file: string, outside: Env): string {
    if EnvName(k).Some? then Getenv(outside, EnvName(k).value)
    else if InitName(k).Some? then Getenv(Load(Lines(file), outside), InitName(k).value)
    else ""
  }

  lemma {:induction false} StoredVariable(k: Key, v: Value, file: string, outside: Env)
    requires PlainSetting(k, v) && EnvName(k).Some? && InFile(file, k, v)
    ensures Getenv(Load(Lines(file), outside), EnvName(k).value)
            == if TextAt(k, file, outside) != "" then TextAt(k, file, outside) else Show(v)
  {
    VariableIsPlain(k);
    ShownIsPlain(v);
    if '\n' !in Show(v) { PlainValuesAreTheFixedPoints(Show(v)); }
    S.HeldLoads(file, EnvName(k).value, Show(v), outside);
  }

  lemma {:induction false} TextOfChunks(file: string, outside: Env)
    ensures TextAt(Limit(ChunkUploadConcurrency), file, outside)
            == Getenv(Load(Lines(file), outside), "KVM_CHUNK_UPLOAD_CONCURRENCY")
  {
    assert EnvName(Limit(ChunkUploadConcurrency)).None?;
    assert InitName(Limit(ChunkUploadConcurrency)) == Some("KVM_CHUNK_UPLOAD_CONCURRENCY");
  }

  /** What a restart makes of a stored plain value, in any environment. */
  lemma {:induction false} StoredIsRestored(k: Key, v: Value, file: string, db: Table, outside: Env)
    requires PlainSetting(k, v) && Stored(file, db, k, v)
    ensures StartField(k, file, db, outside)
            == Restored(k, v, TextAt(k, file, outside), Load(Lines(file), outside))
  {
    if EnvName(k).Some? {
      StoredVariable(k, v, file, outside);
      StartFromVariable(k, v, TextAt(k, file, outside), file, db, outside);
    } else {
      if k == Limit(ChunkUploadConcurrency) { TextOfChunks(file, outside); }
      StartFromRow(k, v, TextAt(k, file, outside), file, db, outside);
    }
  }

  /** The event does not edit k away from v. */
  predicate LeavesAlone(e: Event, k: Key, v: Value) {
    k in Edits(e) ==> Edits(e)[k] == v
  }

  /** Where a kept field stands after one event. */
  function AfterEvent(p: Site, e: Event, k: Key, v: Value): Value {
    if e.Restart? then
      Restored(k, v, TextAt(k, p.secrets.file, e.outside), Load(Lines(p.secrets.file), e.outside))
    else v
  }

  lemma {:induction false} ShownIsTrimmed(v: Value)
    requires PlainField(v)
    ensures TrimRight(Show(v)) == Show(v)
  {
    ShownIsPlain(v);
  }

  lemma {:induction false} StartKeepsInFile(file: string, outside: Env, newVm: string, newSecurity: string,
                                            k: Key, v: Value)
    requires PlainSetting(k, v) && InFile(file, k, v) && S.WritesLines(file, outside, newVm, newSecurity)
    ensures InFile(S.Start(file, outside, newVm, newSecurity).file, k, v)
  {
    if EnvName(k).Some? {
      VariableIsPlain(k);
      ShownIsTrimmed(v);
      S.StartHoldsAs(file, outside, newVm, newSecurity, EnvName(k).value, Show(v));
    }
  }

  lemma {:induction false} RestartOfKept(p: Site, e: Event, p': Site, k: Key, v: Value)
    requires Sound(p) && Legal(p, e, p') && PlainSetting(k, v) && Kept(p, k, v) && e.Restart?
    ensures p'.cfg(k) == AfterEvent(p, e, k, v) && Stored(p'.secrets.file, p'.db, k, v)
  {
    S.StartWritesLines(p.secrets.file, e.outside, e.newVm, e.newSecurity);
    StartKeepsInFile(p.secrets.file, e.outside, e.newVm, e.newSecurity, k, v);
    StoredIsRestored(k, v, p.secrets.file, p.db, e.outside);
  }

  lemma {:induction false} StoredHasOneSpelling(file: string, k: Key, v: Value)
    requires InFile(file, k, v)
    ensures OneSpelling(file, k)
  {
    if EnvName(k).Some? {
      VariableIsPlain(k);
      HeldIsPlain(file, EnvName(k).value, Show(v));
    }
  }

  lemma {:induction false} SaveOfKept(p: Site, e: Event, p': Site, k: Key, v: Value)
    requires Sound(p) && Legal(p, e, p') && LeavesAlone(e, k, v) && PlainSetting(k, v) && Kept(p, k, v) && e.Save?
    ensures p'.cfg(k) == v && Stored(p'.secrets.file, p'.db, k, v)
  {
    StoredHasOneSpelling(p.secrets.file, k, v);
    assert p'.cfg(k) == Edited(p.cfg, e.edits, k) == v;
    SaveStores(p, e.edits, p', k);
  }

  lemma {:induction false} RelocationOfKept(p: Site, e: Event, p': Site, k: Key, v: Value)
    requires Sound(p) && Legal(p, e, p') && LeavesAlone(e, k, v) && PlainSetting(k, v) && Kept(p, k, v) && e.Relocate?
    ensures p'.cfg(k) == v && Stored(p'.secrets.file, p'.db, k, v)
  {
    StoredHasOneSpelling(p.secrets.file, k, v);
    assert p'.cfg(k) == Edited(p.cfg, Moved(e.path, e.importDir), k) == v;
    RelocationStores(p, e.path, e.importDir, p', k);
  }

  lemma {:induction false} RotationOfKept(p: Site, e: Event, p': Site, k: Key, v: Value)
    requires Legal(p, e, p') && Kept(p, k, v) && e.RotateJwt?
    ensures p'.cfg(k) == v && Stored(p'.secrets.file, p'.db, k, v)
  {
    assert p'.cfg(k) == p.cfg(k);
    RotationKeepsInFile(p.secrets.file, e.secret, k, v);
  }

  lemma {:induction false} RotationKeepsInFile(file: string, secret: string, k: Key, v: Value)
    requires InFile(file, k, v) && '\n' !in secret
    ensures InFile(S.WriteJwt(file, secret), k, v)
  {
    if EnvName(k).Some? {
      VariableIsPlain(k);
      S.WriteJwtHoldsAs(file, secret, EnvName(k).value, EnvName(k).value, Show(v));
    }
  }

  lemma {:induction false} StepOfKept(p: Site, e: Event, p': Site, k: Key, v: Value)
    requires Sound(p) && Legal(p, e, p') && LeavesAlone(e, k, v) && PlainSetting(k, v) && Kept(p, k, v)
    ensures p'.cfg(k) == AfterEvent(p, e, k, v) && Stored(p'.secrets.file, p'.db, k, v)
  {
    match e
    case Restart(_, _, _) => RestartOfKept(p, e, p', k, v);
    case Save(_) => SaveOfKept(p, e, p', k, v);
    case Relocate(_, _) => RelocationOfKept(p, e, p', k, v);
    case RotateJwt(_) => RotationOfKept(p, e, p', k, v);
  }

  // ---------------------------------------------------------------- whole runs

  /** A run: the states so far, the last one outermost. */
  datatype Trace = Begin(site: Site) | Then(before: Trace, e: Event, site: Site)

  function First(t: Trace): Site {
    if t.Begin? then t.site else First(t.before)
  }

  /** Each state follows from the one before, and the first is sound. */
  ghost predicate Run(t: Trace) {
    match t
    case Begin(p) => Sound(p)
    case Then(before, e, p) => Run(before) && Legal(before.site, e, p)
  }

  lemma {:induction false} RunIsSound(t: Trace)
    requires Run(t)
    ensures Sound(t.site)
  {
    if t.Then? {
      RunIsSound(t.before);
      StepIsSound(t.before.site, t.e, t.site);
    }
  }

  ghost predicate NeverEdited(t: Trace, k: Key, v: Value) {
    t.Then? ==> NeverEdited(t.before, k, v) && LeavesAlone(t.e, k, v)
  }

  /** The field has the value in every state of the run. */
  predicate AlwaysHas(t: Trace, k: Key, v: Value) {
    t.site.cfg(k) == v && (t.Then? ==> AlwaysHas(t.before, k, v))
  }

  /** The field survives the event, if it is a restart. */
  ghost predicate Passes(p: Site, e: Event, k: Key, v: Value) {
    e.Restart? ==> Survives(k, v, TextAt(k, p.secrets.file, e.outside))
  }

  ghost predicate PassesAll(t: Trace, k: Key, v: Value) {
    t.Then? ==> PassesAll(t.before, k, v) && Passes(t.before.site, t.e, k, v)
  }

  lemma {:induction false} PassIff(p: Site, e: Event, p': Site, k: Key, v: Value)
    requires Sound(p) && Legal(p, e, p') && LeavesAlone(e, k, v) && PlainSetting(k, v) && Kept(p, k, v)
    ensures p'.cfg(k) == v <==> Passes(p, e, k, v)
    ensures Passes(p, e, k, v) ==> Kept(p', k, v)
  {
    StepOfKept(p, e, p', k, v);
    if e.Restart? {
      SurvivesIsExact(k, v, TextAt(k, p.secrets.file, e.outside), Load(Lines(p.secrets.file), e.outside));
    }
  }

  /** A plain field, once saved and not edited since, keeps its value in every state of a run exactly
      if it survives each restart of the run; then both stores keep it too. */
  lemma {:induction false} FieldKeepsIff(t: Trace, k: Key, v: Value)
    requires Run(t) && NeverEdited(t, k, v) && PlainSetting(k, v) && Kept(First(t), k, v)
    ensures AlwaysHas(t, k, v) <==> PassesAll(t, k, v)
    ensures PassesAll(t, k, v) ==> Kept(t.site, k, v)
  {
    if t.Then? {
      FieldKeepsIff(t.before, k, v);
      RunIsSound(t.before);
      if PassesAll(t.before, k, v) {
        PassIff(t.before.site, t.e, t.site, k, v);
      }
    }
  }

  /** The values that no restart can change, unless a variable is passed in for them. */
  predicate Lasting(k: Key, v: Value) {
    match k
    case Disk(DefaultDiskIopsTotal) => v == Int(0)
    case Disk(DefaultDiskIopsRead) => v == Int(0)
    case Disk(DefaultDiskIopsWrite) => v == Int(0)
    case Limit(ChunkUploadConcurrency) => v.Int? && v.n > 0
    case Panel(SpiceEnabledByDefault) => true
    case _ => v != Str("") || Default(k) == Str("")
  }

  /** The environment passes in nothing for a saved setting, or a text that reads as its value. */
  predicate Unopposed(k: Key, v: Value, outside: Env) {
    EnvName(k).Some? ==> Getenv(outside, EnvName(k).value) == ""
                         || ReadAs(Default(k), Getenv(outside, EnvName(k).value)) == v
  }

  ghost predicate SurvivesUnopposed(k: Key, v: Value) {
    forall file, outside | Unopposed(k, v, outside) :: Survives(k, v, TextAt(k, file, outside))
  }

  lemma {:induction false} LastingSurvives(k: Key, v: Value, text: string)
    requires Exported(k) && Lasting(k, v)
    requires EnvName(k).Some? ==> text == "" || ReadAs(Default(k), text) == v
    ensures Survives(k, v, text)
  {
    if EnvName(k).None? { OnlyTwoWithoutVariable(k); }
  }

  lemma {:induction false} OthersFallBack(k: Key, v: Value)
    requires Exported(k) && GoodField(k, v) && !Lasting(k, v)
    ensures !Survives(k, v, "")
  {
  }

  lemma {:induction false} LastingIff(k: Key, v: Value)
    requires PlainSetting(k, v)
    ensures Lasting(k, v) <==> SurvivesUnopposed(k, v)
  {
    if Lasting(k, v) {
      forall file, outside | Unopposed(k, v, outside) ensures Survives(k, v, TextAt(k, file, outside)) {
        LastingSurvives(k, v, TextAt(k, file, outside));
      }
    } else {
      OthersFallBack(k, v);
      EmptyFileLoadsNothing(map[]);
      assert TextAt(k, "", map[]) == "" && Unopposed(k, v, map[]);
    }
  }

  /** The shipped service passes the file in as its environment, and other environments may do so too: no
      restart of the run opposes the value. */
  ghost predicate NeverOpposed(t: Trace, k: Key, v: Value) {
    t.Then? ==> NeverOpposed(t.before, k, v) && (t.e.Restart? ==> Unopposed(k, v, t.e.outside))
  }

  /** A lasting value, once saved and not edited since, stays through every run whose restarts do not pass
      in another: in the running configuration, in the file and in the table. */
  lemma {:induction false} SettingsOutliveRuns(t: Trace, k: Key, v: Value)
    requires Run(t) && NeverEdited(t, k, v) && PlainSetting(k, v) && Kept(First(t), k, v)
    requires Lasting(k, v) && NeverOpposed(t, k, v)
    ensures AlwaysHas(t, k, v) && Kept(t.site, k, v)
  {
    LastingPasses(t, k, v);
    FieldKeepsIff(t, k, v);
  }

  lemma {:induction false} LastingPasses(t: Trace, k: Key, v: Value)
    requires PlainSetting(k, v) && Lasting(k, v) && NeverOpposed(t, k, v)
    ensures PassesAll(t, k, v)
  {
    LastingIff(k, v);
    if t.Then? {
      LastingPasses(t.before, k, v);
    }
  }

  /** Any other value is replaced for good: the restart puts its restored value into the running
      configuration, and the next save puts that into both stores. */
  lemma {:induction false} RestoredTakesOver(p: Site, e: Event, q: Site, edits: map<Key, Value>, r: Site,
                                             k: Key, v: Value)
    requires Sound(p) && Kept(p, k, v) && PlainSetting(k, v)
    requires e.Restart? && Legal(p, e, q)
    requires Legal(q, Save(edits), r) && k !in edits
    ensures Kept(r, k, AfterEvent(p, e, k, v))
  {
    StepIsSound(p, e, q);
    RestartOfKept(p, e, q, k, v);
    StoredHasOneSpelling(q.secrets.file, k, v);
    SaveStores(q, edits, r, k);
    assert r.cfg(k) == Edited(q.cfg, edits, k) == q.cfg(k);
  }

  /** So the three disk limits become 0 everywhere: no row, and 0 in the file. */
  lemma {:induction false} DiskLimitsFallToZero(p: Site, e: Event, q: Site, edits: map<Key, Value>, r: Site,
                                                k: DiskKey, n: int)
    requires k in {DefaultDiskIopsTotal, DefaultDiskIopsRead, DefaultDiskIopsWrite} && IsInt64(n)
    requires Sound(p) && Kept(p, Disk(k), Int(n))
    requires e.Restart? && Legal(p, e, q)
    requires Legal(q, Save(edits), r) && Disk(k) !in edits
    ensures r.cfg(Disk(k)) == Int(0) && Disk(k) !in r.db
    ensures S.HeldAs(r.secrets.file, EnvName(Disk(k)).value, EnvName(Disk(k)).value, "0")
  {
    LimitIsPlain(k, n);
    RestoredTakesOver(p, e, q, edits, r, Disk(k), Int(n));
    ZeroIsRestored(k, n, TextAt(Disk(k), p.secrets.file, e.outside), Load(Lines(p.secrets.file), e.outside));
    KeptZero(r, k);
    NoRowForZero(q, edits, r, k);
  }

  lemma {:induction false} LimitIsPlain(k: DiskKey, n: int)
    requires k in {DefaultDiskIopsTotal, DefaultDiskIopsRead, DefaultDiskIopsWrite} && IsInt64(n)
    ensures PlainSetting(Disk(k), Int(n)) && EnvName(Disk(k)).Some?
  {
  }

  lemma {:induction false} ZeroIsRestored(k: DiskKey, n: int, text: string, env: Env)
    requires k in {DefaultDiskIopsTotal, DefaultDiskIopsRead, DefaultDiskIopsWrite}
    ensures Restored(Disk(k), Int(n), text, env) == Int(0)
  {
  }

  lemma {:induction false} KeptZero(p: Site, k: DiskKey)
    requires Kept(p, Disk(k), Int(0)) && EnvName(Disk(k)).Some?
    ensures S.HeldAs(p.secrets.file, EnvName(Disk(k)).value, EnvName(Disk(k)).value, "0")
  {
    assert Show(Int(0)) == "0";
  }

  lemma {:induction false} NoRowForZero(q: Site, edits: map<Key, Value>, r: Site, k: DiskKey)
    requires Legal(q, Save(edits), r) && r.cfg(Disk(k)) == Int(0)
    ensures Disk(k) !in r.db
  {
    assert Show(Int(0)) == "0";
  }

  // ---------------------------------------------------------------- from a fresh install

  /** The first start ever: no file, no rows. */
  ghost predicate Fresh(p: Site, e: Event) {
    && e.Restart? && Allowed(e)
    && p.secrets == S.Start("", e.outside, e.newVm, e.newSecurity)
    && StartedFields(p.cfg, "", map[], e.outside) && p.db == map[]
  }

  /** A fresh install can begin a run. */
  lemma {:induction false} FreshBeginsRun(p: Site, e: Event)
    requires Fresh(p, e)
    ensures Run(Begin(p))
  {
    forall k | Exported(k) ensures GoodField(k, p.cfg(k)) {
      StartedFieldIsGood(k, "", map[], e.outside);
    }
  }

  lemma {:induction false} EmptyFileIsPlain(k: Key)
    ensures OneSpelling("", k)
  {
    assert Lines("") == [""];
  }

  lemma {:induction false} StartKeepsSpelling(file: string, e: Event, k: Key)
    requires e.Restart? && Allowed(e) && OneSpelling(file, k)
    ensures OneSpelling(S.Start(file, e.outside, e.newVm, e.newSecurity).file, k)
  {
    S.StartWritesLines(file, e.outside, e.newVm, e.newSecurity);
    if EnvName(k).Some? {
      VariableIsPlain(k);
      S.StartStaysPlain(file, e.outside, e.newVm, e.newSecurity, EnvName(k).value);
    }
  }

  lemma {:induction false} SaveStaysPlain(p: Site, edits: map<Key, Value>, p': Site, k: Key)
    requires Sound(p) && Legal(p, Save(edits), p') && Exported(k) && OneSpelling(p.secrets.file, k)
    ensures OneSpelling(p'.secrets.file, k)
  {
    SaveStores(p, edits, p', k);
    StoredHasOneSpelling(p'.secrets.file, k, p'.cfg(k));
  }

  lemma {:induction false} RelocationStaysPlain(p: Site, path: string, importDir: string, p': Site, k: Key)
    requires Sound(p) && Legal(p, Relocate(path, importDir), p') && Exported(k) && OneSpelling(p.secrets.file, k)
    ensures OneSpelling(p'.secrets.file, k)
  {
    RelocationIsSound(p, path, importDir, p');
    SavedInFile(p'.cfg, p.secrets, p'.secrets, k);
    StoredHasOneSpelling(p'.secrets.file, k, p'.cfg(k));
  }

  lemma {:induction false} RestartStaysPlain(p: Site, e: Event, p': Site, k: Key)
    requires Legal(p, e, p') && OneSpelling(p.secrets.file, k) && e.Restart?
    ensures OneSpelling(p'.secrets.file, k)
  {
    StartKeepsSpelling(p.secrets.file, e, k);
  }

  lemma {:induction false} RotationKeepsSpelling(file: string, secret: string, k: Key)
    requires OneSpelling(file, k) && '\n' !in secret
    ensures OneSpelling(S.WriteJwt(file, secret), k)
  {
    if EnvName(k).Some? {
      VariableIsPlain(k);
      RotationStaysPlain(file, secret, EnvName(k).value);
    }
  }

  lemma {:induction false} RotationStaysPlain(file: string, secret: string, n: string)
    requires PlainKey(n) && n != S.JWT_SECRET && '\n' !in secret && S.PlainlySpelled(file, n)
    ensures S.PlainlySpelled(S.WriteJwt(file, secret), n)
  {
    S.PlainNames();
    S.KeyPartOfLine(S.JWT_SECRET, secret);
    S.CoreOfPlain(S.JWT_SECRET);
    forall l | l in Lines(S.WriteJwt(file, secret)) && S.Touches(l, n) ensures S.KeyPart(l) == n {
      S.WriteJwtLines(file, secret, l);
    }
  }

  lemma {:induction false} FreshHasOneSpelling(p: Site, e: Event, k: Key)
    requires Fresh(p, e)
    ensures OneSpelling(p.secrets.file, k)
  {
    EmptyFileIsPlain(k);
    StartKeepsSpelling("", e, k);
  }

  lemma {:induction false} RotationStepStaysPlain(p: Site, e: Event, p': Site, k: Key)
    requires Legal(p, e, p') && OneSpelling(p.secrets.file, k) && e.RotateJwt?
    ensures OneSpelling(p'.secrets.file, k)
  {
    RotationKeepsSpelling(p.secrets.file, e.secret, k);
  }

  lemma {:induction false} StepStaysPlain(p: Site, e: Event, p': Site, k: Key)
    requires Sound(p) && Legal(p, e, p') && OneSpelling(p.secrets.file, k) && Exported(k)
    ensures OneSpelling(p'.secrets.file, k)
  {
    match e
    case Restart(_, _, _) => RestartStaysPlain(p, e, p', k);
    case Save(edits) => SaveStaysPlain(p, edits, p', k);
    case Relocate(path, importDir) => RelocationStaysPlain(p, path, importDir, p', k);
    case RotateJwt(_) => RotationStepStaysPlain(p, e, p', k);
  }

  lemma {:induction false} RunStaysPlain(t: Trace, e: Event, k: Key)
    requires Run(t) && Fresh(First(t), e) && Exported(k)
    ensures OneSpelling(t.site.secrets.file, k)
  {
    if t.Begin? {
      FreshHasOneSpelling(t.site, e, k);
    } else {
      RunStaysPlain(t.before, e, k);
      RunIsSound(t.before);
      StepStaysPlain(t.before.site, t.e, t.site, k);
    }
  }

  /** From a fresh install on, every save puts every setting into both stores, so that the theorems
      above apply from then on without any condition on the file. */
  lemma {:induction false} EverySaveStores(t: Trace, e: Event, k: Key)
    requires Run(t) && Fresh(First(t), e) && Exported(k) && t.Then? && t.e.Save?
    ensures Kept(t.site, k, t.site.cfg(k))
  {
    RunStaysPlain(t.before, e, k);
    RunIsSound(t.before);
    SaveStores(t.before.site, t.e.edits, t.site, k);
  }
}
