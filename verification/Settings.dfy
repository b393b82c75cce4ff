/** Saving the settings into both stores and reading them back at the next start. */
module Settings {
  import opened Text
  import opened EnvFile
  import opened EnvRoundTrip
  import opened EnvShadow
  import opened Decimal
  import opened SettingsTable

  type Config = Key -> Value

  /** The settings table of the database, other rows left out. */
  type Table = map<Key, string>

  function AllKeys(): set<Key> {
    (set k: ImageKey :: Image(k)) + (set k: DiskKey :: Disk(k)) + (set k: NetworkKey :: Network(k))
    + (set k: OvsKey :: Ovs(k)) + (set k: PortKey :: Port(k)) + (set k: ProbeKey :: Probe(k))
    + (set k: VpcKey :: Vpc(k)) + (set k: PanelKey :: Panel(k)) + (set k: MaintenanceKey :: Maintenance(k))
    + (set k: MailKey :: Mail(k)) + (set k: MemoryKey :: Memory(k)) + (set k: ReserveKey :: Reserve(k))
    + (set k: ThresholdKey :: Threshold(k)) + (set k: HealthKey :: Health(k)) + (set k: LxcKey :: Lxc(k))
    + (set k: LogKey :: Log(k)) + (set k: LimitKey :: Limit(k)) + (set k: SessionKey :: Session(k))
    + (set k: FeatureKey :: Feature(k)) + (set k: HostKey :: Host(k))
  }

  lemma {:induction false} AllKeysIsComplete(k: Key)
    ensures k in AllKeys()
  {
  }

  // ---------------------------------------------------------------- fields and their texts

  function Show(v: Value): string {
    match v
    case Str(s) => s
    case Int(n) => Itoa(n)
    case Flag(b) => FormatBool(b)
  }

  /** ToSettingsMap. */
  function ToSettingsMap(cfg: Config): Table {
    map k | k in AllKeys() && Exported(k) :: Show(cfg(k))
  }

  /** getEnv, getEnvInt and getEnvBool: an unset or unparsable text gives the default. */
  function ReadAs(default: Value, text: string): Value {
    if text == "" then default
    else
      match default
      case Str(_) => Str(text)
      case Int(_) => (match Atoi(text) case Some(n) => Int(n) case None => default)
      case Flag(_) => (match ParseBool(text) case Some(b) => Flag(b) case None => default)
  }

  /** filepath.Join of a clean directory and a plain name. */
  function JoinPath(dir: string, name: string): string {
    dir + "/" + name
  }

  function TemplateDirIn(env: Env): string {
    if Getenv(env, "KVM_TEMPLATE_DIR") != "" then Getenv(env, "KVM_TEMPLATE_DIR")
    else TEMPLATE_DIR
  }

  /** The default Init uses; two directories hang below another setting. */
  function DefaultIn(k: Key, env: Env): Value {
    match k
    case Image(TemplateImportDir) => Str(JoinPath(TemplateDirIn(env), "_imports"))
    case Image(TemplateExportDir) => Str(JoinPath(TemplateDirIn(env), "_exports"))
    case _ => Default(k)
  }

  /** The field as Init sets it. */
  function InitField(k: Key, env: Env): Value {
    match InitName(k)
    case None => Default(k)
    case Some(name) => ReadAs(DefaultIn(k, env), Getenv(env, name))
  }

  predicate Overridden(k: Key, env: Env) {
    EnvName(k).Some? && Getenv(env, EnvName(k).value) != ""
  }

  /** One case of the switch in LoadFromDB. */
  function ApplyRule(rule: DbRule, current: Value, text: string): Value {
    match rule
    case Assign => Str(text)
    case IfInt => (match Atoi(text) case Some(n) => Int(n) case None => current)
    case IfPositive => (match Atoi(text) case Some(n) => if n > 0 then Int(n) else current case None => current)
    case IfNonNegative => (match Atoi(text) case Some(n) => if n >= 0 then Int(n) else current case None => current)
    case IfBool => (match ParseBool(text) case Some(b) => Flag(b) case None => current)
    case NotFalse => Flag(text != "false")
    case IsTrue => Flag(text == "true")
  }

  /** The field after LoadFromDB. */
  function DbField(k: Key, current: Value, db: Table, env: Env): Value {
    if k in db && db[k] != "" && !Overridden(k, env) then ApplyRule(Rule(k), current, db[k]) else current
  }

  /** The field after a start: loadEnvFile, Init, LoadFromDB. */
  function StartField(k: Key, file: string, db: Table, outside: Env): Value {
    var env := Load(Lines(file), outside);
    DbField(k, InitField(k, env), db, env)
  }

  // ---------------------------------------------------------------- what persistSettings leaves behind

  predicate KeptWhenZero(k: Key) {
    k == Memory(DynamicMemoryObservationHours) || k == Panel(SpiceEnabledByDefault)
  }

  predicate Deleted(k: Key, text: string) {
    text == "" || (text == "0" && !KeptWhenZero(k))
  }

  /** The table has the row of v where a save writes one; elsewhere it has none, or one that says the same
      or nothing. */
  predicate RowFor(db: Table, k: Key, v: Value) {
    && (!Deleted(k, Show(v)) ==> k in db)
    && (k in db ==> db[k] == Show(v) || (db[k] == "" && Deleted(k, Show(v))))
  }

  ghost predicate SavedTable(cfg: Config, db: Table, db': Table) {
    forall k: Key ::
      && (k in db' <==> if Exported(k) then !Deleted(k, Show(cfg(k))) else k in db)
      && (k in db' ==> db'[k] == if Exported(k) then Show(cfg(k)) else db[k])
  }

  /** The lines SyncEnvFile is asked to set: one for each exported key with a variable. */
  ghost predicate ManagedLines(cfg: Config, managed: Env) {
    && (forall name :: name in managed <==> KeyOf(name).Some? && Exported(KeyOf(name).value))
    && (forall name | name in managed :: managed[name] == Show(cfg(KeyOf(name).value)))
  }

  predicate OneLine(v: Value) {
    v.Str? ==> '\n' !in v.s
  }

  /** A field as the program keeps it: of its own kind, a machine integer, on one line. */
  predicate GoodField(k: Key, v: Value) {
    Fits(Default(k), v)
  }

  predicate Fits(default: Value, v: Value) {
    match default
    case Str(_) => v.Str? && '\n' !in v.s
    case Int(_) => v.Int? && IsInt64(v.n)
    case Flag(_) => v.Flag?
  }

  predicate PlainField(v: Value) {
    v.Str? ==> v.s == "" || PlainValue(v.s)
  }

  lemma {:induction false} ShownNumbersArePlain(v: Value)
    requires !v.Str?
    ensures Show(v) != "" && PlainValue(Show(v))
  {
  }

  lemma {:induction false} ShownIsPlain(v: Value)
    requires PlainField(v)
    ensures Show(v) == "" || PlainValue(Show(v))
  {
  }

  lemma {:induction false} ReadOfShow(default: Value, v: Value)
    requires v.Str? ==> default.Str?
    requires v.Int? ==> default.Int? && IsInt64(v.n)
    requires v.Flag? ==> default.Flag?
    ensures ReadAs(default, Show(v)) == if v == Str("") then default else v
  {
    match v
    case Str(_) =>
    case Int(n) => AtoiOfItoa(n); ShownNumbersArePlain(v);
    case Flag(b) => ParseOfFormatBool(b); ShownNumbersArePlain(v);
  }

  lemma {:induction false} KeyOfIsRight(name: string)
    requires KeyOf(name).Some?
    ensures EnvName(KeyOf(name).value) == Some(name)
  {
  }

  lemma {:induction false} ManagedIsPlain(cfg: Config, managed: Env)
    requires ManagedLines(cfg, managed)
    requires forall k | Exported(k) :: OneLine(cfg(k))
    ensures PlainMap(managed)
  {
    forall name | name in managed ensures PlainKey(name) && '\n' !in managed[name] {
      var k := KeyOf(name).value;
      KeyOfIsRight(name);
      NamesArePlain(k);
      PlainNameIsPlainKey(name);
      if !cfg(k).Str? { ShownNumbersArePlain(cfg(k)); }
    }
  }

  lemma {:induction false} ManagedEntry(cfg: Config, managed: Env, k: Key)
    requires ManagedLines(cfg, managed) && Exported(k) && EnvName(k).Some?
    ensures EnvName(k).value in managed && managed[EnvName(k).value] == Show(cfg(k))
  {
    NameIsOwn(k);
  }

  // ---------------------------------------------------------------- a start, tier by tier

  /** The variables have every key that is exported, but for two, and no other. */
  lemma {:induction false} ExportedIff(k: Key)
    ensures Exported(k) <==> EnvName(k).Some? || k == Panel(SpiceEnabledByDefault) || k == Limit(ChunkUploadConcurrency)
  {
  }

  const TRUE_WORDS: seq<string> := ["1", "t", "T", "true", "True", "TRUE"]
  const FALSE_WORDS: seq<string> := ["0", "f", "F", "false", "False", "FALSE"]

  /** The field that a text stands for, by the kind of its default. */
  ghost predicate Denotes(default: Value, text: string, v: Value) {
    match default
    case Str(_) => v == Str(text)
    case Int(_) => v.Int? && Atoi(text) == Some(v.n)
    case Flag(_) => (text in TRUE_WORDS && v == Flag(true)) || (text in FALSE_WORDS && v == Flag(false))
  }

  lemma {:induction false} ReadDenotes(default: Value, text: string, v: Value)
    requires text != ""
    ensures Denotes(default, text, v) ==> ReadAs(default, text) == v
    ensures (forall x :: !Denotes(default, text, x)) ==> ReadAs(default, text) == default
  {
    match default
    case Str(_) => assert Denotes(default, text, Str(text));
    case Int(_) => if n: int :| Atoi(text) == Some(n) { assert Denotes(default, text, Int(n)); }
    case Flag(_) =>
      assert text in TRUE_WORDS ==> Denotes(default, text, Flag(true));
      assert text in FALSE_WORDS ==> Denotes(default, text, Flag(false));
  }

  /** What Init reads: of a variable with a text what the text stands for, if it stands for anything, and
      the default in all other cases. */
  lemma {:induction false} InitReads(k: Key, env: Env, v: Value)
    ensures InitName(k).None? ==> InitField(k, env) == Default(k)
    ensures InitName(k).Some? && Getenv(env, InitName(k).value) == "" ==> InitField(k, env) == DefaultIn(k, env)
    ensures InitName(k).Some? && Getenv(env, InitName(k).value) != "" ==>
              var text := Getenv(env, InitName(k).value);
              && (Denotes(Default(k), text, v) ==> InitField(k, env) == v)
              && ((forall x :: !Denotes(Default(k), text, x)) ==> InitField(k, env) == Default(k))
  {
    if InitName(k).Some? && Getenv(env, InitName(k).value) != "" {
      TextBeatsDefault(k, env, Getenv(env, InitName(k).value));
      ReadDenotes(Default(k), Getenv(env, InitName(k).value), v);
    }
  }

  /** Two directories have their default below the template directory, wherever that is; no other default
      depends on anything. */
  lemma {:induction false} DirsFollowTemplateDir(env: Env)
    ensures var dir := if Getenv(env, "KVM_TEMPLATE_DIR") == "" then TEMPLATE_DIR else Getenv(env, "KVM_TEMPLATE_DIR");
            && DefaultIn(Image(TemplateImportDir), env) == Str(dir + "/_imports")
            && DefaultIn(Image(TemplateExportDir), env) == Str(dir + "/_exports")
    ensures forall k | k != Image(TemplateImportDir) && k != Image(TemplateExportDir) :: DefaultIn(k, env) == Default(k)
  {
  }

  predicate RuleFits(rule: DbRule, default: Value) {
    match rule
    case Assign => default.Str?
    case IfInt => default.Int?
    case IfPositive => default.Int?
    case IfNonNegative => default.Int?
    case _ => default.Flag?
  }

  lemma {:induction false} RuleFitsKind(k: Key)
    ensures RuleFits(Rule(k), Default(k))
  {
  }

  /** The numbers that a row must have to be taken: three counts must be positive, the hours of the JWT
      rotation must not be negative. */
  predicate TableTakes(k: Key, v: Value) {
    && (k in {Limit(BatchCloneMaxConcurrency), Limit(ChunkUploadConcurrency), Feature(ApiMaxBodySizeMb)} ==>
          v.Int? && v.n > 0)
    && (k == Host(JwtSecretRotateHours) ==> v.Int? && v.n >= 0)
  }

  lemma {:induction false} RulesByKey(k: Key)
    ensures Rule(k) == IfPositive <==>
            k in {Limit(BatchCloneMaxConcurrency), Limit(ChunkUploadConcurrency), Feature(ApiMaxBodySizeMb)}
    ensures Rule(k) == IfNonNegative <==> k == Host(JwtSecretRotateHours)
  {
  }

  predicate OnUnlessFalse(k: Key) {
    || k == Session(SessionFingerprintEnabled)
    || k == Session(PasswordBreachCheckEnabled)
    || k == Feature(RequestFilterEnabled)
  }

  predicate OffUnlessTrue(k: Key) {
    k == Feature(HardwarePassthroughEnabled) || k == Feature(ErrorDetailInResponse)
  }

  lemma {:induction false} FlagRulesByKey(k: Key)
    ensures Rule(k) == NotFalse <==> OnUnlessFalse(k)
    ensures Rule(k) == IsTrue <==> OffUnlessTrue(k)
  {
    match k
    case Session(s) => assert s == SessionFingerprintEnabled || s == PasswordBreachCheckEnabled;
    case _ =>
  }

  lemma {:induction false} OddRule(rule: DbRule, default: Value, current: Value, text: string)
    requires RuleFits(rule, default) && !default.Str?
    requires text !in TRUE_WORDS && text !in FALSE_WORDS && Atoi(text).None?
    ensures ApplyRule(rule, current, text) ==
            if rule == NotFalse then Flag(true) else if rule == IsTrue then Flag(false) else current
  {
  }

  lemma {:induction false} RuleOfShow(rule: DbRule, default: Value, current: Value, v: Value)
    requires RuleFits(rule, default) && Fits(default, v)
    ensures ApplyRule(rule, current, Show(v)) ==
            if (rule == IfPositive && v.n <= 0) || (rule == IfNonNegative && v.n < 0) then current else v
  {
    match v
    case Str(_) =>
    case Int(n) => AtoiOfItoa(n);
    case Flag(b) => ParseOfFormatBool(b);
  }

  predicate HasVariable(k: Key, file: string, outside: Env) {
    EnvName(k).Some? && Getenv(Load(Lines(file), outside), EnvName(k).value) != ""
  }

  /** The middle tier: with no text in its variable a field is the value that its row shows, where the
      number may be taken, and else what Init read. That goes for the three disk limits too. */
  lemma {:induction false} StartFromTable(k: Key, v: Value, file: string, db: Table, outside: Env)
    requires GoodField(k, v) && Show(v) != "" && k in db && db[k] == Show(v) && !HasVariable(k, file, outside)
    ensures StartField(k, file, db, outside) == if TableTakes(k, v) then v else InitField(k, Load(Lines(file), outside))
  {
    RuleFitsKind(k);
    RulesByKey(k);
    RuleOfShow(Rule(k), Default(k), InitField(k, Load(Lines(file), outside)), v);
  }

  /** The outer tiers: a text in the variable, or the lack of a row, leaves the field as Init read it. */
  lemma {:induction false} StartWithoutTable(k: Key, file: string, db: Table, outside: Env)
    requires HasVariable(k, file, outside) || k !in db || db[k] == ""
    ensures StartField(k, file, db, outside) == InitField(k, Load(Lines(file), outside))
  {
  }

  /** Rows that no save writes: a number that is none leaves the field as it is, and so does a flag that is
      none, but for five flags, of which three are then on and two are off. */
  lemma {:induction false} StartFromOddRow(k: Key, file: string, db: Table, outside: Env)
    requires k in db && db[k] != "" && !HasVariable(k, file, outside) && !Default(k).Str?
    requires db[k] !in TRUE_WORDS && db[k] !in FALSE_WORDS && Atoi(db[k]).None?
    ensures StartField(k, file, db, outside) ==
            if OnUnlessFalse(k) then Flag(true) else if OffUnlessTrue(k) then Flag(false)
            else InitField(k, Load(Lines(file), outside))
  {
    RuleFitsKind(k);
    FlagRulesByKey(k);
    OddRule(Rule(k), Default(k), InitField(k, Load(Lines(file), outside)), db[k]);
  }

  /** The values that a save leaves a row for: not the empty text, and a zero only of two settings. */
  predicate LeavesRow(k: Key, v: Value) {
    && v != Str("")
    && (v == Int(0) || v == Str("0") ==>
          k == Memory(DynamicMemoryObservationHours) || k == Panel(SpiceEnabledByDefault))
  }

  lemma {:induction false} LeavesRowIff(cfg: Config, db: Table, db': Table, k: Key)
    requires SavedTable(cfg, db, db') && Exported(k)
    ensures k in db' <==> LeavesRow(k, cfg(k))
    ensures k in db' ==> db'[k] == Show(cfg(k)) != ""
  {
    ShownIsEmptyOnlyForEmpty(cfg(k));
    ShownIsZero(cfg(k));
  }

  lemma {:induction false} ShownIsZero(v: Value)
    ensures Show(v) == "0" <==> v == Int(0) || v == Str("0")
  {
    if v.Int? { ItoaIsZero(v.n); }
  }

  /** Save, lose the `.env`, start: every exported field whose variables are silent comes back from the
      table, where the save left a row that may be taken, and else as its default. */
  lemma {:induction false} RestartWithoutFile(cfg: Config, db: Table, db': Table, outside: Env, k: Key)
    requires SavedTable(cfg, db, db') && GoodFields(cfg) && Exported(k)
    requires EnvName(k).Some? ==> Getenv(outside, EnvName(k).value) == ""
    requires InitName(k).Some? ==> Getenv(outside, InitName(k).value) == ""
    ensures StartField(k, "", db', outside) ==
            if LeavesRow(k, cfg(k)) && TableTakes(k, cfg(k)) then cfg(k) else DefaultIn(k, outside)
  {
    var v := cfg(k);
    assert GoodField(k, v);
    EmptyFileLoadsNothing(outside);
    LeavesRowIff(cfg, db, db', k);
    InitReads(k, outside, v);
    SameNameWhenRead(k);
    if LeavesRow(k, v) {
      StartFromTable(k, v, "", db', outside);
    } else {
      StartWithoutTable(k, "", db', outside);
    }
  }

  // ---------------------------------------------------------------- save, then restart

  /** The variable that has to do with k: the one it is saved under, or else the one that Init reads. */
  function VariableOf(k: Key): Option<string> {
    if EnvName(k).Some? then EnvName(k) else InitName(k)
  }

  /** The text that the next start finds in the place of the saved value of k, if there is one: passed in
      from outside, or of an old line that hides the saved one. A variable that is not saved, as that of
      the chunk count, has the text it is left with. */
  ghost function TextOver(k: Key, v: Value, file: string, outside: Env): string {
    if VariableOf(k).None? then ""
    else if Getenv(outside, VariableOf(k).value) != "" then Getenv(outside, VariableOf(k).value)
    else if EnvName(k).Some? then Hider(SyncView(file), EnvName(k).value, Show(v))
    else FirstSpelled(SyncView(file), VariableOf(k).value)
  }

  /** What a saved field has become after a restart that found the text over it. */
  function Restored(k: Key, v: Value, text: string, env: Env): Value {
    if InitName(k).None? then Default(k)
    else if EnvName(k).Some? then
      if text != "" then ReadAs(DefaultIn(k, env), text) else if v == Str("") then DefaultIn(k, env) else v
    else if Rule(k) == IfPositive && !(v.Int? && v.n > 0) then ReadAs(Default(k), text)
    else v
  }

  lemma {:induction false} OnlyTwoWithoutVariable(k: Key)
    requires Exported(k) && EnvName(k).None?
    ensures k == Panel(SpiceEnabledByDefault) || k == Limit(ChunkUploadConcurrency)
  {
  }

  lemma {:induction false} SameNameWhenRead(k: Key)
    ensures EnvName(k).Some? && InitName(k).Some? ==> InitName(k) == EnvName(k)
    ensures InitName(k).None? <==>
            k in {Disk(DefaultDiskIopsTotal), Disk(DefaultDiskIopsRead), Disk(DefaultDiskIopsWrite)}
  {
  }

  lemma {:induction false} DefaultsKeepTheirKind(k: Key, env: Env)
    ensures DefaultIn(k, env).Str? == Default(k).Str?
    ensures DefaultIn(k, env).Int? == Default(k).Int?
    ensures DefaultIn(k, env).Flag? == Default(k).Flag?
  {
  }

  /** The variables after the restart: each managed one holds the text from outside, what was saved, or
      what hides it. */
  lemma {:induction false} SavedVariable(cfg: Config, file: string, managed: Env, outside: Env, k: Key)
    requires ManagedLines(cfg, managed) && forall x | Exported(x) :: OneLine(cfg(x))
    requires Exported(k) && EnvName(k).Some? && PlainField(cfg(k))
    ensures var text := TextOver(k, cfg(k), file, outside);
            Getenv(Load(Lines(Sync(file, managed)), outside), EnvName(k).value)
            == if text != "" then text else Show(cfg(k))
  {
    ManagedIsPlain(cfg, managed);
    ManagedEntry(cfg, managed, k);
    ShownIsPlain(cfg(k));
    LoadGet(Lines(Sync(file, managed)), outside, EnvName(k).value);
    if Getenv(outside, EnvName(k).value) == "" {
      LoadedAfterSave(file, managed, EnvName(k).value, outside);
    }
  }

  /** A variable that is read but not saved has the text it was left with. */
  lemma {:induction false} UnsavedVariable(cfg: Config, file: string, managed: Env, outside: Env, k: Key, v: Value,
                                           name: string)
    requires ManagedLines(cfg, managed) && forall x | Exported(x) :: OneLine(cfg(x))
    requires EnvName(k).None? && InitName(k) == Some(name) && PlainKey(name) && KeyOf(name).None?
    ensures Getenv(Load(Lines(Sync(file, managed)), outside), name) == TextOver(k, v, file, outside)
  {
    ManagedIsPlain(cfg, managed);
    LoadGet(Lines(Sync(file, managed)), outside, name);
    if Getenv(outside, name) == "" {
      LeftAloneLoads(file, managed, name, outside);
    }
  }

  lemma {:induction false} ChunksName()
    ensures NameChars("KVM_CHUNK_UPLOAD_CONCURRENCY")
  {
  }

  lemma {:induction false} ChunksAreUnsaved()
    ensures PlainKey("KVM_CHUNK_UPLOAD_CONCURRENCY") && KeyOf("KVM_CHUNK_UPLOAD_CONCURRENCY").None?
  {
    ChunksName();
    PlainNameIsPlainKey("KVM_CHUNK_UPLOAD_CONCURRENCY");
    assert |"KVM_CHUNK_UPLOAD_CONCURRENCY"| == 28;
    assert EnvName(Health(LxcHealthCheckConcurrency)).value[0] == 'L';
  }

  /** A field whose variable has a text: the text alone decides. */
  lemma {:induction false} StartFromText(k: Key, text: string, file: string, db: Table, outside: Env)
    requires EnvName(k).Some? && text != ""
    requires Getenv(Load(Lines(file), outside), EnvName(k).value) == text
    ensures StartField(k, file, db, outside) ==
            if InitName(k).None? then Default(k) else ReadAs(DefaultIn(k, Load(Lines(file), outside)), text)
  {
    SameNameWhenRead(k);
  }

  /** A field with a variable of its own: the saved text, or the text over it, comes back through the
      environment. */
  lemma {:induction false} StartFromVariable(k: Key, v: Value, text: string, file: string, db: Table, outside: Env)
    requires EnvName(k).Some? && GoodField(k, v)
    requires Getenv(Load(Lines(file), outside), EnvName(k).value) == if text != "" then text else Show(v)
    requires RowFor(db, k, v)
    ensures StartField(k, file, db, outside) == Restored(k, v, text, Load(Lines(file), outside))
  {
    var env := Load(Lines(file), outside);
    var found := if text != "" then text else Show(v);
    SameNameWhenRead(k);
    ShownIsEmptyOnlyForEmpty(v);
    if found != "" {
      StartFromText(k, found, file, db, outside);
    }
    if text == "" {
      DefaultsKeepTheirKind(k, env);
      ReadOfShow(DefaultIn(k, env), v);
    }
  }

  lemma {:induction false} ShownIsEmptyOnlyForEmpty(v: Value)
    ensures Show(v) == "" <==> v == Str("")
  {
  }

  lemma {:induction false} SpiceFromTable(b: bool, file: string, db: Table, outside: Env)
    requires Panel(SpiceEnabledByDefault) in db && db[Panel(SpiceEnabledByDefault)] == FormatBool(b)
    ensures StartField(Panel(SpiceEnabledByDefault), file, db, outside) == Flag(b)
  {
  }

  lemma {:induction false} ChunksFromTable(n: int, file: string, db: Table, outside: Env)
    requires IsInt64(n) && RowFor(db, Limit(ChunkUploadConcurrency), Int(n))
    ensures StartField(Limit(ChunkUploadConcurrency), file, db, outside) ==
            if n > 0 then Int(n) else InitField(Limit(ChunkUploadConcurrency), Load(Lines(file), outside))
  {
    AtoiOfItoa(n);
    ItoaIsZero(n);
    ShownIsEmptyOnlyForEmpty(Int(n));
  }

  ghost predicate GoodFields(cfg: Config) {
    forall k | Exported(k) :: GoodField(k, cfg(k))
  }

  lemma {:induction false} GoodIsOneLine(cfg: Config)
    requires GoodFields(cfg)
    ensures forall k | Exported(k) :: OneLine(cfg(k))
  {
    forall k | Exported(k) ensures OneLine(cfg(k)) {
      assert GoodField(k, cfg(k));
    }
  }

  lemma {:induction false} SavedRow(cfg: Config, db: Table, db': Table, k: Key)
    requires SavedTable(cfg, db, db') && Exported(k)
    ensures RowFor(db', k, cfg(k))
  {
  }

  /** Save, then restart in any environment: every exported field ends as `Restored` says, from any
      earlier file and table. */
  lemma {:induction false} SaveThenRestart(cfg: Config, file: string, db: Table, managed: Env, db': Table,
                                           outside: Env, k: Key)
    requires ManagedLines(cfg, managed) && SavedTable(cfg, db, db') && GoodFields(cfg)
    requires Exported(k) && PlainField(cfg(k))
    ensures StartField(k, Sync(file, managed), db', outside) ==
            Restored(k, cfg(k), TextOver(k, cfg(k), file, outside), Load(Lines(Sync(file, managed)), outside))
  {
    var v := cfg(k);
    assert GoodField(k, v);
    GoodIsOneLine(cfg);
    SavedRow(cfg, db, db', k);
    if EnvName(k).Some? {
      SavedVariable(cfg, file, managed, outside, k);
      StartFromVariable(k, v, TextOver(k, v, file, outside), Sync(file, managed), db', outside);
    } else {
      ChunksAreUnsaved();
      if k == Limit(ChunkUploadConcurrency) {
        UnsavedVariable(cfg, file, managed, outside, k, v, "KVM_CHUNK_UPLOAD_CONCURRENCY");
      }
      StartFromRow(k, v, TextOver(k, v, file, outside), Sync(file, managed), db', outside);
    }
  }

  /** The two fields without a variable come from their rows. */
  lemma {:induction false} StartFromRow(k: Key, v: Value, text: string, file: string, db: Table, outside: Env)
    requires Exported(k) && EnvName(k).None? && GoodField(k, v) && RowFor(db, k, v)
    requires k == Limit(ChunkUploadConcurrency) ==>
               text == Getenv(Load(Lines(file), outside), "KVM_CHUNK_UPLOAD_CONCURRENCY")
    ensures StartField(k, file, db, outside) == Restored(k, v, text, Load(Lines(file), outside))
  {
    OnlyTwoWithoutVariable(k);
    if k == Panel(SpiceEnabledByDefault) {
      SpiceFromRow(v, text, file, db, outside);
    } else {
      ChunksFromRow(v, text, file, db, outside);
    }
  }

  lemma {:induction false} SpiceFromRow(v: Value, text: string, file: string, db: Table, outside: Env)
    requires GoodField(Panel(SpiceEnabledByDefault), v) && RowFor(db, Panel(SpiceEnabledByDefault), v)
    ensures StartField(Panel(SpiceEnabledByDefault), file, db, outside) ==
            Restored(Panel(SpiceEnabledByDefault), v, text, Load(Lines(file), outside))
  {
    ShownIsEmptyOnlyForEmpty(v);
    SpiceFromTable(v.b, file, db, outside);
  }

  lemma {:induction false} ChunksFromRow(v: Value, text: string, file: string, db: Table, outside: Env)
    requires GoodField(Limit(ChunkUploadConcurrency), v) && RowFor(db, Limit(ChunkUploadConcurrency), v)
    requires text == Getenv(Load(Lines(file), outside), "KVM_CHUNK_UPLOAD_CONCURRENCY")
    ensures StartField(Limit(ChunkUploadConcurrency), file, db, outside) ==
            Restored(Limit(ChunkUploadConcurrency), v, text, Load(Lines(file), outside))
  {
    ChunksFromTable(v.n, file, db, outside);
  }

  /** When a saved field survives a restart that finds the text over it. The three disk limits that Init
      never reads come back as 0; a chunk count must be positive or be what Init reads of the text; the
      SPICE default always survives; any other field must not have a text over it that reads differently,
      nor be an empty text with another default. */
  predicate Survives(k: Key, v: Value, text: string) {
    match k
    case Disk(DefaultDiskIopsTotal) => v == Int(0)
    case Disk(DefaultDiskIopsRead) => v == Int(0)
    case Disk(DefaultDiskIopsWrite) => v == Int(0)
    case Limit(ChunkUploadConcurrency) => v.Int? && (v.n > 0 || v == ReadAs(Int(3), text))
    case Panel(SpiceEnabledByDefault) => true
    case _ => if text != "" then ReadAs(Default(k), text) == v else v != Str("") || Default(k) == Str("")
  }

  lemma {:induction false} SurvivesIsExact(k: Key, v: Value, text: string, env: Env)
    requires GoodField(k, v) && Exported(k)
    ensures Restored(k, v, text, env) == v <==> Survives(k, v, text)
  {
    SameNameWhenRead(k);
    if text != "" { TextBeatsDefault(k, env, text); }
    if EnvName(k).None? { OnlyTwoWithoutVariable(k); }
  }

  /** Save, then restart, is the identity on a field exactly when `Survives`, whatever the file said before
      and whatever the environment passes in. */
  lemma {:induction false} RestartIsIdentityIff(cfg: Config, file: string, db: Table, managed: Env, db': Table,
                                                outside: Env, k: Key)
    requires ManagedLines(cfg, managed) && SavedTable(cfg, db, db') && GoodFields(cfg)
    requires Exported(k) && PlainField(cfg(k))
    ensures StartField(k, Sync(file, managed), db', outside) == cfg(k)
            <==> Survives(k, cfg(k), TextOver(k, cfg(k), file, outside))
  {
    assert GoodField(k, cfg(k));
    SaveThenRestart(cfg, file, db, managed, db', outside, k);
    SurvivesIsExact(k, cfg(k), TextOver(k, cfg(k), file, outside), Load(Lines(Sync(file, managed)), outside));
  }

  /** The environment beats both stores: a variable set outside decides its field alone. */
  lemma {:induction false} OutsideWins(k: Key, file: string, file': string, db: Table, db': Table, outside: Env)
    requires EnvName(k).Some? && InitName(k).Some? && Getenv(outside, EnvName(k).value) != ""
    ensures StartField(k, file, db, outside) == StartField(k, file', db', outside)
            == ReadAs(Default(k), Getenv(outside, EnvName(k).value))
  {
    var text := Getenv(outside, EnvName(k).value);
    LoadGet(Lines(file), outside, EnvName(k).value);
    LoadGet(Lines(file'), outside, EnvName(k).value);
    StartFromText(k, text, file, db, outside);
    StartFromText(k, text, file', db', outside);
    TextBeatsDefault(k, Load(Lines(file), outside), text);
    TextBeatsDefault(k, Load(Lines(file'), outside), text);
  }

  /** The defaults that hang below another setting are texts, which any text replaces. */
  lemma {:induction false} TextBeatsDefault(k: Key, env: Env, text: string)
    requires text != ""
    ensures ReadAs(DefaultIn(k, env), text) == ReadAs(Default(k), text)
  {
  }

  /** A shadowed variable ignores every save, whatever is saved under it. */
  lemma {:induction false} ShadowedFieldIgnoresSaves(cfg: Config, cfg': Config, file: string, managed: Env,
                                                     managed': Env, outside: Env, k: Key)
    requires ManagedLines(cfg, managed) && ManagedLines(cfg', managed')
    requires forall x | Exported(x) :: OneLine(cfg(x)) && OneLine(cfg'(x))
    requires Exported(k) && EnvName(k).Some? && !NotShadowed(SyncView(file), EnvName(k).value)
    ensures Getenv(Load(Lines(Sync(file, managed)), outside), EnvName(k).value)
            == Getenv(Load(Lines(Sync(file, managed')), outside), EnvName(k).value)
  {
    ManagedIsPlain(cfg, managed);
    ManagedIsPlain(cfg', managed');
    ManagedEntry(cfg, managed, k);
    ManagedEntry(cfg', managed', k);
    ShadowHidesEverySave(file, managed, managed', EnvName(k).value, outside);
  }
}
