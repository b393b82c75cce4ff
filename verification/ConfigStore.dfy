/** The configuration as the program holds it: the loops over lines and maps of config.go and
    settings.go, proved against the functions of EnvFile, Secrets and Settings. */
module ConfigStore {
  import opened Text
  import opened EnvFile
  import opened EnvRoundTrip
  import opened SettingsTable
  import opened Settings
  import Secrets

  /** env is what loadEnvFile makes of the file and of the environment it was given. */
  ghost predicate LoadedFrom(env: Env, file: string, outside: Env) {
    env == Load(Lines(file), outside)
  }

  ghost predicate InitialFields(cfg: Config, env: Env) {
    forall k :: cfg(k) == InitField(k, env)
  }

  ghost predicate OverlaidFields(initial: Config, cfg: Config, db: Table, env: Env) {
    forall k :: cfg(k) == DbField(k, initial(k), db, env)
  }

  ghost predicate StartedFields(cfg: Config, file: string, db: Table, outside: Env) {
    forall k :: cfg(k) == StartField(k, file, db, outside)
  }

  lemma {:induction false} FieldsAfterStart(initial: Config, cfg: Config, env: Env, file: string, db: Table,
                                            outside: Env)
    requires LoadedFrom(env, file, outside) && InitialFields(initial, env)
    requires OverlaidFields(initial, cfg, db, env)
    ensures StartedFields(cfg, file, db, outside)
  {
  }

  ghost predicate InitialSecrets(s: Secrets.State, file: string, env: Env, newVm: string, newSecurity: string) {
    s == Secrets.StartIn(file, env, newVm, newSecurity)
  }

  ghost predicate StartedSecrets(s: Secrets.State, file: string, outside: Env, newVm: string, newSecurity: string) {
    s == Secrets.Start(file, outside, newVm, newSecurity)
  }

  lemma {:induction false} SecretsAfterStart(s: Secrets.State, env: Env, file: string, outside: Env,
                                             newVm: string, newSecurity: string)
    requires LoadedFrom(env, file, outside) && InitialSecrets(s, file, env, newVm, newSecurity)
    ensures StartedSecrets(s, file, outside, newVm, newSecurity)
  {
  }

  /** One process on one host: its environment and fields, and the two stores that outlive it. */
  class Console {
    var file: string
    var db: Table
    var env: Env
    var cfg: Config
    var vm: string
    var security: string
    var legacy: string
    var jwt: string

    constructor (file: string, db: Table, outside: Env)
      ensures this.file == file && this.db == db && this.env == outside
    {
      this.file, this.db, this.env := file, db, outside;
      this.cfg := k => Default(k);
      this.vm, this.security, this.legacy, this.jwt := "", "", "", "";
    }

    ghost function Secret(): Secrets.State
      reads this
    {
      Secrets.State(file, vm, security, legacy, jwt)
    }

    /** loadEnvFile. */
    method LoadEnvFile()
      modifies `env
      ensures LoadedFrom(env, file, old(env))
    {
      var lines := Lines(file);
      var i := 0;
      while i < |lines|
        invariant 0 <= i <= |lines|
        invariant env == Load(lines[..i], old(env))
      {
        LoadNext(lines, i, old(env));
        LoadOne(lines[i]);
        i := i + 1;
      }
      assert lines[..|lines|] == lines;
    }

    /** One turn of that loop. */
    method LoadOne(raw: string)
      modifies `env
      ensures env == LoadStep(old(env), raw)
    {
      match LoadLine(raw) {
        case None =>
        case Some(b) =>
          if Getenv(env, b.key) == "" {
            env := Setenv(env, b.key, b.val);
          }
      }
    }

    method ReadForAppend() returns (envData: Env)
      ensures envData == AppendView(file)
    {
      var lines := Lines(file);
      envData := map[];
      var i := 0;
      while i < |lines|
        invariant 0 <= i <= |lines|
        invariant envData == ReadMap(AppendLine, lines[..i])
      {
        ReadNext(AppendLine, lines, i);
        match AppendLine(lines[i]) {
          case None =>
          case Some(b) => envData := envData[b.key := b.val];
        }
        i := i + 1;
      }
      assert lines[..|lines|] == lines;
    }

    /** appendEnvKey. */
    method AppendEnvKey(key: string, value: string)
      modifies `file
      ensures file == Append(old(file), key, value)
    {
      var envData := ReadForAppend();
      envData := envData[key := value];
      file := Render(envData);
    }

    /** The tail of both rewriters: collect in whatever order the map gives, sort, join. */
    static method Render(envData: Env) returns (text: string)
      ensures text == Written(envData)
    {
      var lines: seq<string> := [];
      var rest := envData.Keys;
      ghost var order: seq<string> := [];
      while rest != {}
        invariant rest <= envData.Keys
        invariant forall k :: k in order <==> k in envData && k !in rest
        invariant forall i, j | 0 <= i < j < |order| :: order[i] != order[j]
        invariant lines == LinesInOrder(order, envData)
        decreases rest
      {
        var k :| k in rest;
        rest := rest - {k};
        order := order + [k];
        lines := lines + [k + "=" + envData[k]];
      }
      text := Join(SortStrings(lines)) + "\n";
      WriterIsCanonical(order, AnyOrder(envData), envData);
    }

    method InitVm(newVm: string)
      modifies `file, `vm
      ensures var known := Getenv(env, Secrets.VM_SECRET);
              vm == (if known == "" then newVm else known) && file == Secrets.AfterVm(old(file), known, newVm)
    {
      vm := Getenv(env, Secrets.VM_SECRET);
      if vm == "" {
        vm := newVm;
        AppendEnvKey(Secrets.VM_SECRET, newVm);
      }
    }

    /** The end of Init: generate the secrets that are still missing. */
    method InitSecrets(newVm: string, newSecurity: string)
      modifies `file, `vm, `security, `legacy, `jwt
      ensures InitialSecrets(Secret(), old(file), env, newVm, newSecurity)
    {
      jwt := Secrets.GetEnvOr(env, Secrets.JWT_SECRET, Secrets.DEFAULT_JWT_SECRET);
      security := Getenv(env, Secrets.SECURITY_SECRET);
      InitVm(newVm);
      if security == "" {
        legacy := jwt;
        security := newSecurity;
        AppendEnvKey(Secrets.SECURITY_SECRET, newSecurity);
        AppendEnvKey(Secrets.LEGACY_SECRET, legacy);
      } else {
        legacy := Getenv(env, Secrets.LEGACY_SECRET);
      }
    }

    method InitFields()
      modifies `cfg
      ensures InitialFields(cfg, env)
    {
      var e := env;
      cfg := k => InitField(k, e);
    }

    method InitLoaded(newVm: string, newSecurity: string)
      modifies `file, `vm, `security, `legacy, `jwt, `cfg
      ensures InitialFields(cfg, env)
      ensures InitialSecrets(Secret(), old(file), env, newVm, newSecurity)
    {
      InitFields();
      InitSecrets(newVm, newSecurity);
    }

    /** Init: the environment, the fields, and the secrets. */
    method Init(newVm: string, newSecurity: string)
      modifies `file, `vm, `security, `legacy, `jwt, `cfg, `env
      ensures LoadedFrom(env, old(file), old(env))
      ensures InitialFields(cfg, env)
      ensures InitialSecrets(Secret(), old(file), env, newVm, newSecurity)
    {
      LoadEnvFile();
      InitLoaded(newVm, newSecurity);
    }

    /** LoadFromDB, over the rows in any order. */
    method LoadFromDB()
      modifies `cfg
      ensures OverlaidFields(old(cfg), cfg, db, env)
    {
      var rest := db.Keys;
      while rest != {}
        invariant rest <= db.Keys
        invariant forall k :: cfg(k) == if k in rest then old(cfg)(k) else DbField(k, old(cfg)(k), db, env)
        decreases rest
      {
        var key :| key in rest;
        rest := rest - {key};
        var value := db[key];
        if value != "" && !(EnvName(key).Some? && Getenv(env, EnvName(key).value) != "") {
          var field := ApplyRule(Rule(key), cfg(key), value);
          var before := cfg;
          cfg := k => if k == key then field else before(k);
        }
      }
    }

    method Boot(outside: Env, newVm: string, newSecurity: string)
      modifies `file, `env, `cfg, `vm, `security, `legacy, `jwt
      ensures LoadedFrom(env, old(file), outside)
      ensures InitialFields(cfg, env)
      ensures InitialSecrets(Secret(), old(file), env, newVm, newSecurity)
    {
      env := outside;
      Init(newVm, newSecurity);
    }

    /** One start of the program on the stores that the last one left. */
    method Start(outside: Env, newVm: string, newSecurity: string)
      modifies `file, `env, `cfg, `vm, `security, `legacy, `jwt
      ensures StartedFields(cfg, old(file), db, outside)
      ensures StartedSecrets(Secret(), old(file), outside, newVm, newSecurity)
    {
      Boot(outside, newVm, newSecurity);
      SecretsAfterStart(Secret(), env, old(file), outside, newVm, newSecurity);
      ghost var initial := cfg;
      LoadFromDB();
      FieldsAfterStart(initial, cfg, env, old(file), db, outside);
    }

    method SettingsMap() returns (m: Table)
      ensures forall k :: k in m <==> Exported(k)
      ensures forall k | k in m :: m[k] == Show(cfg(k))
    {
      m := ToSettingsMap(cfg);
      forall k ensures k in AllKeys() {
        AllKeysIsComplete(k);
      }
    }

    method ReadForSync() returns (envData: Env)
      ensures envData == SyncView(file)
    {
      var lines := Lines(file);
      envData := map[];
      var i := 0;
      while i < |lines|
        invariant 0 <= i <= |lines|
        invariant envData == ReadMap(SyncLine, lines[..i])
      {
        ReadNext(SyncLine, lines, i);
        match SyncLine(lines[i]) {
          case None =>
          case Some(b) => envData := envData[b.key := b.val];
        }
        i := i + 1;
      }
      assert lines[..|lines|] == lines;
    }

    /** keyToEnvVar as the map it is. */
    method KeyToEnvVar() returns (names: map<Key, string>)
      ensures forall k :: k in names <==> EnvName(k).Some?
      ensures forall k | k in names :: EnvName(k) == Some(names[k])
    {
      names := map k | k in AllKeys() && EnvName(k).Some? :: EnvName(k).value;
      forall k ensures k in AllKeys() {
        AllKeysIsComplete(k);
      }
    }

    /** Set every variable that has a setting, in whatever order the map gives. */
    static method Merge(view: Env, settingsMap: Table, names: map<Key, string>)
      returns (envData: Env, ghost managed: Env)
      requires forall k, k' | k in names && k' in names && names[k] == names[k'] :: k == k'
      ensures forall k | k in settingsMap && k in names :: names[k] in envData && envData[names[k]] == settingsMap[k]
      ensures envData == view + managed
      ensures forall k | k in settingsMap && k in names :: names[k] in managed && managed[names[k]] == settingsMap[k]
      ensures forall name | name in managed :: exists k :: k in settingsMap && k in names && names[k] == name
    {
      envData, managed := view, map[];
      var rest := settingsMap.Keys;
      while rest != {}
        invariant rest <= settingsMap.Keys
        invariant forall k | k in settingsMap && k in names && k !in rest ::
                    names[k] in managed && managed[names[k]] == settingsMap[k]
        invariant forall name | name in managed ::
                    exists k :: k in settingsMap && k in names && names[k] == name
        invariant envData == view + managed
        decreases rest
      {
        var key :| key in rest;
        rest := rest - {key};
        if key in names {
          SumUpdate(view, managed, names[key], settingsMap[key]);
          envData := envData[names[key] := settingsMap[key]];
          managed := managed[names[key] := settingsMap[key]];
        }
      }
    }

    /** SyncEnvFile. */
    method SyncEnvFile() returns (ghost managed: Env)
      modifies `file
      ensures ManagedLines(cfg, managed) && file == Sync(old(file), managed)
    {
      var view := ReadForSync();
      var settingsMap := SettingsMap();
      var names := KeyToEnvVar();
      forall k, k' | k in names && k' in names && names[k] == names[k'] ensures k == k' {
        NamesAreDistinct(k, k');
      }
      var envData;
      envData, managed := Merge(view, settingsMap, names);
      MergedIsManaged(cfg, settingsMap, names, managed);
      file := Render(envData);
    }

    /** The first loop of writeJWTSecretToEnv: rewrite the first line, or add one at the end. */
    static method SetJwt(before: seq<string>, secret: string) returns (lines: seq<string>)
      ensures lines == Secrets.SetJwtLine(before, secret)
    {
      lines := before;
      var i := 0;
      while i < |lines| && !Secrets.IsJwtLine(lines[i])
        invariant 0 <= i <= |lines| && forall j | 0 <= j < i :: !Secrets.IsJwtLine(lines[j])
      {
        i := i + 1;
      }
      Secrets.SetJwtLineAt(lines, secret, i);
      if i < |lines| {
        lines := lines[i := Secrets.JWT_SECRET + "=" + secret];
      } else {
        lines := lines + [Secrets.JWT_SECRET + "=" + secret];
      }
    }

    /** writeJWTSecretToEnv, and the running secret after it. */
    method RotateJwt(secret: string)
      modifies `file, `jwt
      ensures Secret() == Secrets.Step(old(Secret()), Secrets.RotateJwt(secret))
    {
      var lines := SetJwt(Lines(file), secret);
      file := WithoutBlanks(lines);
      jwt := secret;
    }

    /** The end of writeJWTSecretToEnv: no blank lines, one newline at the end. */
    static method WithoutBlanks(lines: seq<string>) returns (text: string)
      ensures text == Join(Secrets.DropBlank(lines)) + "\n"
    {
      var cleanLines: seq<string> := [];
      for i := 0 to |lines|
        invariant cleanLines == Secrets.DropBlank(lines[..i])
      {
        Secrets.DropBlankNext(lines, i);
        if Trim(lines[i]) != "" {
          cleanLines := cleanLines + [lines[i]];
        }
      }
      assert lines[..|lines|] == lines;
      text := Join(cleanLines) + "\n";
    }

    /** The database half of persistSettings. */
    method PersistRows(settingsMap: Table)
      modifies `db
      ensures forall k | k !in settingsMap :: k in db <==> k in old(db)
      ensures forall k | k in db && k !in settingsMap :: db[k] == old(db)[k]
      ensures forall k | k in settingsMap :: k in db <==> !Deleted(k, settingsMap[k])
      ensures forall k | k in db && k in settingsMap :: db[k] == settingsMap[k]
    {
      var rest := settingsMap.Keys;
      while rest != {}
        invariant rest <= settingsMap.Keys
        invariant forall k | k !in settingsMap :: k in db <==> k in old(db)
        invariant forall k | k in db && k !in settingsMap :: db[k] == old(db)[k]
        invariant forall k | k in settingsMap && k !in rest :: k in db <==> !Deleted(k, settingsMap[k])
        invariant forall k | k in db && k in settingsMap && k !in rest :: db[k] == settingsMap[k]
        decreases rest
      {
        var key :| key in rest;
        rest := rest - {key};
        var value := settingsMap[key];
        if value == "" || (value == "0" && key != Memory(DynamicMemoryObservationHours)
                           && key != Panel(SpiceEnabledByDefault)) {
          db := db - {key};
        } else {
          db := db[key := value];
        }
      }
    }

    /** persistSettings. */
    method PersistSettings() returns (ghost managed: Env)
      modifies `file, `db
      ensures SavedTable(cfg, old(db), db)
      ensures ManagedLines(cfg, managed) && file == Sync(old(file), managed)
    {
      var settingsMap := SettingsMap();
      PersistRows(settingsMap);
      managed := SyncEnvFile();
    }
  }

  lemma {:induction false} SumUpdate(m: Env, n: Env, k: string, v: string)
    ensures (m + n)[k := v] == m + n[k := v]
  {
  }

  lemma {:induction false} MergedIsManaged(cfg: Config, settingsMap: Table, names: map<Key, string>, managed: Env)
    requires forall k :: k in settingsMap <==> Exported(k)
    requires forall k | k in settingsMap :: settingsMap[k] == Show(cfg(k))
    requires forall k :: k in names <==> EnvName(k).Some?
    requires forall k | k in names :: EnvName(k) == Some(names[k])
    requires forall k | k in settingsMap && k in names :: names[k] in managed && managed[names[k]] == settingsMap[k]
    requires forall name | name in managed :: exists k :: k in settingsMap && k in names && names[k] == name
    ensures ManagedLines(cfg, managed)
  {
    forall name ensures name in managed <==> KeyOf(name).Some? && Exported(KeyOf(name).value)
                ensures name in managed ==> managed[name] == Show(cfg(KeyOf(name).value))
    {
      if name in managed {
        var k :| k in settingsMap && k in names && names[k] == name;
        NameIsOwn(k);
      }
      if KeyOf(name).Some? {
        KeyOfIsRight(name);
      }
    }
  }

  lemma {:induction false} LoadNext(lines: seq<string>, i: nat, env: Env)
    requires i < |lines|
    ensures Load(lines[..i + 1], env) == LoadStep(Load(lines[..i], env), lines[i])
  {
    assert lines[..i + 1][..i] == lines[..i];
  }

  lemma {:induction false} ReadNext(reader: string -> Option<Binding>, lines: seq<string>, i: nat)
    requires i < |lines|
    ensures ReadMap(reader, lines[..i + 1]) ==
            match reader(lines[i])
            case None => ReadMap(reader, lines[..i])
            case Some(b) => ReadMap(reader, lines[..i])[b.key := b.val]
  {
    assert lines[..i + 1][..i] == lines[..i];
  }

  lemma {:induction false} VmSecretIsUnmanaged()
    ensures KeyOf(Secrets.VM_SECRET).None?
  {
    assert |Secrets.VM_SECRET| == 24 && Secrets.VM_SECRET[0] == 'K' && Secrets.VM_SECRET[4] == 'V';
    assert EnvName(Mail(SmtpTimeoutSeconds)).value[4] == 'S';
  }

  lemma {:induction false} SecuritySecretIsUnmanaged()
    ensures KeyOf(Secrets.SECURITY_SECRET).None?
  {
    assert |Secrets.SECURITY_SECRET| == 19 && Secrets.SECURITY_SECRET[18] == 'T' && Secrets.SECURITY_SECRET[4] == 'S';
    assert EnvName(Port(AutoPortStart)).value[4] == 'A';
  }

  lemma {:induction false} LegacySecretIsUnmanaged()
    ensures KeyOf(Secrets.LEGACY_SECRET).None?
  {
  }

  /** A settings save is one of the events over which the secrets are proved stable. */
  lemma {:induction false} SavesAreHarmless(cfg: Config, managed: Env)
    requires ManagedLines(cfg, managed) && forall k | Exported(k) :: OneLine(cfg(k))
    ensures Secrets.Harmless(Secrets.Save(managed))
  {
    ManagedIsPlain(cfg, managed);
    VmSecretIsUnmanaged();
    SecuritySecretIsUnmanaged();
    LegacySecretIsUnmanaged();
  }
}
