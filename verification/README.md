# QVMConsole: a verified model of its hard cores

QVMConsole is a web console for KVM hosts. This project models the parts of its Go server whose
correctness spans more than one function, and proves what they keep over all inputs and all runs.

- `Text`, `Decimal`, `Sets`: Go's string trimming, splitting and sorting, its number and bool texts,
  and sizes of sets.
- `EnvFile`, `EnvRoundTrip`, `EnvShadow`: the three readers and two writers of the `.env` file, which
  differ in trimming, quoting and the treatment of duplicates, and what each later finds of what
  another wrote.
- `SettingsTable`, `Settings`, `ConfigStore`, `SettingsRuns`: the 80 settings, the two stores
  they are saved in, and save-then-restart, over whole runs.
- `Secrets`: the generated secrets over restarts in any environment, settings saves, JWT rotations,
  and a crash in the first start.
- `ApiKeys`, `ApiKeyRuns`: the life of an API key, alone and together with the secrets.
- `RateLimit`: the per-address limiter with its clean-ups, against a limiter that never deletes.
- `NicOrder`, `NicRuns`, `NicThreeCrashes`, `VpcBindings`: renumbering of network interfaces under a
  unique index, with any number of crashes.
- `CidrAllocation`: handing out free networks.
- `VirtioMemory`: sizes of virtio-mem machines, quota deltas, and the request sanitiser.
- `KernelModule`: the modprobe option reader over many files, and its writer.
- `ByteFormat`: the unit search of the byte formatter.

Files, tables and maps are plain values held by classes where the source updates them in place
(`Console`, `RateLimiter`, `BindingTable`, `SwitchTable`, `ApiKeyStore`, `VirtioMachine`,
`ModprobeDir`); each method is proved against a function, and the theorems are about the functions.
Clock readings, random tokens, the outside environment and the point of a crash are parameters.
A loop over a Go map takes its elements in an arbitrary order.

## What turned out to be false

Each of these is proved, with the exact condition under which the code does what one expects.

- Save then restart is not the identity: the three disk IOPS keys come back as 0, because Init never
  reads their variables and LoadFromDB skips them; a chunk concurrency that is not positive and an
  empty text with a non-empty default come back as defaults (`Settings.SurvivesIsExact`). If the file is
  lost the table gives the three keys back (`Settings.RestartWithoutFile`).
- A hand-written line such as `KVM_SITE_TITLE =x` hides every later save of that setting
  (`EnvShadow.ShadowHidesEverySave`, `EnvShadow.SpacedLineWins`; `EnvShadow.EverySaveLoadsIff` and
  `EnvShadow.EmptySaveLoadsIff` say exactly when saved values are loaded).
- A duplicated line changes its value over a save (`Secrets.DuplicateNameChanges`, with the exact
  condition in `Secrets.SaveKeepsNameIff`); the loader takes the first, the writer keeps the last.
- Both of these need the variable not to be passed in from outside. The installed service passes the
  file itself in as its environment (install.sh:1728-1730), so that there what systemd makes of the
  lines decides; `Settings.RestartIsIdentityIff` covers every environment.
- The legacy secret is lost if the JWT secret has outer blanks or quotes (`Secrets.LegacySurvivesIffPlain`,
  `Secrets.BlankInFrontIsLost`).
- A JWT rotation is undone by the next start if the file has a line `KVM_JWT_SECRET = x`, with a blank
  before '=', which the loader reads and the rotation does not rewrite (`Secrets.SpacedJwtUndoesRotation`,
  with the exact condition in `Secrets.RotationLoadsIff`).
- A crash between the two appends of config.go:343-344 leaves the old file's legacy secret, most often
  none, for good, and so loses every API key of before (`ApiKeyRuns.CrashLosesOldKeys`,
  `ApiKeyRuns.OldKeyIsLost`, with the exact condition in `Secrets.CrashBetweenAppends` and
  `ApiKeyRuns.CrashKeepsKeysIff`).
- The limiter's comment speaks of a sliding window; the window is fixed, and the bound is twice the
  limit less one, which is reached (`RateLimit.BoundIsReached`). A limit itself holds in every minute
  only if it is 1 (`RateLimit.LimitHoldsIff`).
- The NIC renumbering survives one crash at any point, but two crashes can leave a row below zero
  (`NicOrder.TwoCrashesBreakIt`, with the exact condition in `NicOrder.NumberedIff`). Further starts
  repair that, each one at least half of what is left: n of them for fewer than 2^n interfaces
  (`NicRuns.AnyCrashesThenRuns`). One or two starts are not always enough
  (`NicThreeCrashes.TwoRunsAreNotEnough`).
- Upgrading a legacy hash can change which keys are accepted if one secret with its colon starts the
  other (`ApiKeys.UpgradeKeepsKeysIff`, `ApiKeys.SecretsCanBeConfused`).
- A virtio-mem machine of 1 GB reads back as 2 GB (`VirtioMemory.SpecOfBuilt`).
- A memory edit of a virtio-mem machine that comes with an empty dynamic request is put to the quota and
  then changes nothing (`VirtioMemory.DeltaIsGrowthIff`).
- The limiter's `itoa` prints nothing for -1, the remaining count it reports when there is no limit
  (`RateLimit.Itoa`).

## Model

| member | source | states |
|---|---|---|
| `Text.IsSpaceIff` | server/config/config.go:199-199 | The blanks that are trimmed are the 25 characters of Unicode's White_Space property |
| `Text.TrimParts` | server/config/config.go:199-205 | Trimming takes Unicode blanks off both ends of a text and nothing else |
| `Text.LessIff` | server/config/config.go:1032-1032 | The order of the sort: a text is smaller if it ends, or has the smaller character, where the two first differ |
| `Text.JoinOfLines` | server/config/config.go:198-198 | Splitting a file into lines and joining them gives the file back |
| `EnvFile.UnquoteParts` | server/config/config.go:206-209 | One pair of equal quote characters is taken off the ends of a value, or nothing is |
| `EnvFile.LastBindingWins` | server/config/config.go:1003-1011 | In the map a rewriter reads, the last line that binds a key decides its value |
| `EnvRoundTrip.QuotedLoads` | server/config/config.go:204-209 | A text in quotes is loaded as the text between them, whatever it is, blanks around the quotes aside |
| `EnvRoundTrip.OtherQuotesStay` | server/config/config.go:206-209 | Quotes that do not match, and a quote alone, stay in the value |
| `EnvRoundTrip.QuotedLineLoads` | server/config/config.go:192-216 | A line with a quoted value, the only one that offers anything for its name, gives the name the text between the quotes |
| `EnvRoundTrip.LoadedAreLegal` | server/config/config.go:210-213 | The loader adds only names without '=' and NUL with texts without NUL, and changes no variable that has a text |
| `EnvFile.LoadLineParts` | server/config/config.go:198-214 | A line a=b is taken by the loader exactly if its key is not a comment and not blank, with both parts trimmed and quotes stripped from the value |
| `EnvFile.AppendLineParts` | server/config/config.go:421-431 | The same line as the key appender reads it: comments are not skipped, the value keeps its quotes and its leading blanks |
| `EnvFile.SyncLineParts` | server/config/config.go:1003-1010 | The same line as the settings writer reads it: nothing is trimmed, one byte order mark at its start is dropped |
| `EnvFile.WriterIsCanonical` | server/config/config.go:437-443 | Whatever order the map is iterated in, the text written is the same and its lines are sorted |
| `EnvFile.WrittenLines` | server/config/config.go:1028-1034 | The written text has one line for each entry of the map, the empty last line, and no other |
| `EnvFile.ReadBack` | server/config/config.go:1001-1038 | A reader that understands each printed line gets exactly the printed map back |
| `EnvRoundTrip.AppendViewIsClean` | server/config/config.go:421-431 | Every entry the appender reads has a trimmed, non-empty key without '=' and fits on one line |
| `EnvRoundTrip.AppendIsUpdate` | server/config/config.go:407-447 | Appending a key is a map update on the appender's own reading: the key is set, every other entry is kept |
| `EnvRoundTrip.AppendIsIdempotent` | server/config/config.go:407-447 | Appending the same key and value again leaves the text as it is |
| `EnvRoundTrip.SyncIsUpdate` | server/config/config.go:995-1038 | The settings writer changes the managed keys only, on its own reading, if and only if no key in the file starts with two byte order marks |
| `EnvRoundTrip.LoadGet` | server/config/config.go:192-216 | After loading, a variable has its value from outside, else the first non-empty offer of any line |
| `EnvRoundTrip.PlainValuesAreTheFixedPoints` | server/config/config.go:203-209 | The loader gives a one-line value back as written if and only if it is empty or has no outer blanks, no wrapping quotes and no NUL |
| `EnvRoundTrip.TrimmedKeysLoad` | server/config/config.go:192-216 | From a text printed from trimmed keys the loader takes for each name the value of that name and no other |
| `EnvRoundTrip.LoadAfterAppend` | server/config/config.go:192-216 | After an append the loader finds the new value under the new key, and under every other key what the appender had read there |
| `EnvRoundTrip.AppendThenLoad` | server/config/config.go:407-447 | What was appended is loaded again if and only if it is a plain value or empty |
| `EnvShadow.LoadedAfterSave` | server/config/config.go:995-1038 | After a save over any file, the next start loads the saved plain value, or else the text of the first old line that hides it |
| `EnvShadow.SavedValueLoadsIff` | server/config/config.go:995-1038 | The saved value is the one loaded if and only if no old line hides it, or what hides it reads the same |
| `EnvShadow.EmptySaveLoadsIff` | server/config/config.go:203-213 | An empty value is loaded as empty if and only if no other spelling of the name offers anything |
| `EnvShadow.EverySaveLoadsIff` | server/config/config.go:203-213 | Every non-empty plain value that may be saved is loaded if and only if the file has no spelling of the name that sorts before it and offers something |
| `EnvShadow.FirstHiderWins` | server/config/config.go:1028-1034 | Among several hiding lines the loader takes the one that is written first |
| `EnvShadow.LeftAloneLoads` | server/config/config.go:995-1038 | A name that a save leaves alone is loaded afterwards as the first of its spellings in sort order |
| `EnvShadow.ShadowWins` | server/config/config.go:1028-1034 | Under a shadow the next start loads one and the same text, whatever is saved |
| `EnvShadow.ShadowHidesEverySave` | server/config/config.go:203-213 | With such a line two different saves load the same value: saving has no effect on the variable |
| `EnvShadow.SpaceBeforeEqualsShadows` | server/config/config.go:1005-1009 | A name followed by a blank before '=' is such a spelling, for every name |
| `EnvShadow.SpacedLineWins` | server/config/config.go:203-213 | Concretely, over a file whose only line is NAME =x, whatever is saved under NAME, the next start finds x |
| `Decimal.AtoiOfItoa` | server/config/config.go:458-465 | Every int64 printed by Itoa is parsed back to itself |
| `Decimal.AtoiIff` | server/config/config.go:458-465 | A text is a number exactly if it is an optional sign, any zeros and the digits of a number within int64 |
| `Decimal.ParseOfFormatBool` | server/config/config.go:468-475 | Every bool printed by FormatBool is parsed back to itself |
| `SettingsTable.NamesArePlain` | server/config/config.go:564-642 | Every variable name in the key table is made of capitals and underscores, so every reader keeps it |
| `SettingsTable.NamesAreDistinct` | server/config/config.go:564-642 | No two keys share a variable |
| `SettingsTable.NameIsOwn` | server/config/config.go:564-642 | Looking a variable up gives the key it belongs to |
| `Settings.SameNameWhenRead` | server/config/config.go:223-322 | Init reads each variable that keyToEnvVar names, except the three disk IOPS ones, which it never reads |
| `Settings.OnlyTwoWithoutVariable` | server/config/config.go:564-642 | Exactly two exported keys have no variable: the SPICE default and the chunk upload concurrency |
| `Settings.ExportedIff` | server/config/config.go:906-993 | A key is exported exactly if it has a variable or is one of those two |
| `Settings.ReadOfShow` | server/config/config.go:450-475 | A field printed and read again is itself; the empty text gives the default |
| `Settings.SavedVariable` | server/config/config.go:995-1038 | After a save over any file, the next start finds each managed variable at the text passed in from outside, else at its saved text or the text that hides it |
| `Settings.UnsavedVariable` | server/config/config.go:995-1038 | A variable that is read but not saved, as that of the chunk count, has afterwards the text from outside or the first spelling that the old file had of it |
| `Settings.SpiceFromTable` | server/config/config.go:647-657 | The SPICE default comes back from the database row in both of its values |
| `Settings.ChunksFromTable` | server/config/config.go:647-657 | The chunk concurrency comes back from its row if it is positive; otherwise Init's value stands |
| `Settings.StartFromText` | server/config/config.go:450-475 | A variable with any text decides its field alone, unless Init does not read it, and then the default does |
| `Settings.InitReads` | server/config/config.go:450-475 | What Init reads of a variable: what its text stands for, by the kind of the field, and the default if it stands for nothing |
| `Settings.DirsFollowTemplateDir` | server/config/config.go:222-233 | Two directories have their default below the template directory of the environment; no other default depends on anything |
| `Settings.StartFromTable` | server/config/config.go:644-903 | With no text in its variable a field is the value that its row shows, the three disk IOPS limits included; only three counts must be positive and the rotation hours not negative, or Init's value stands |
| `Settings.StartWithoutTable` | server/config/config.go:644-657 | A text in the variable, or the lack of a row, leaves the field as Init read it |
| `Settings.StartFromOddRow` | server/config/config.go:647-903 | A row that no save writes leaves a number or flag as Init read it, but for three flags that it switches on and two that it switches off |
| `Settings.LeavesRowIff` | server/handler/settings.go:791-803 | A save leaves a row for a field exactly if it is not the empty text, and not a zero but of two settings |
| `Settings.RestartWithoutFile` | server/handler/settings.go:791-806 | Save, lose the file, start: every exported field comes back from the table if the save left a row that may be taken, and else as its default |
| `Settings.SaveThenRestart` | server/handler/settings.go:791-806 | From any earlier file and table and in any environment, save then restart gives every exported plain field its restored value: itself, the reading of the text passed in from outside or of an old line that hides it, or the default where one of the named exceptions applies |
| `Settings.SurvivesIsExact` | server/config/config.go:647-903 | The restored value is the saved one if and only if the stated condition on key, value and the text over it holds: the three IOPS keys only at 0, the chunk count only if positive or what Init reads of its variable, the SPICE default always, any other field only if the text over it reads the same, and without one empty texts only if the default is empty |
| `Settings.RestartIsIdentityIff` | server/handler/settings.go:791-806 | From any earlier file and table and in any environment, save then restart is the identity on a plain field if and only if that condition holds of what was there before the save |
| `Settings.OutsideWins` | server/config/config.go:644-657 | A variable set outside decides its field alone, whatever is in the file and the table, for every key that Init reads |
| `Settings.ShadowedFieldIgnoresSaves` | server/config/config.go:995-1038 | A shadowed variable loads the same value after any two saves |
| `SettingsRuns.RestartConsole` | server/config/config.go:219-350 | One start of the program is the restart step of the runs below |
| `SettingsRuns.SaveConsole` | server/handler/settings.go:791-806 | Editing fields and persisting the running configuration is their save step: configuration, file and table together |
| `SettingsRuns.RelocateConsole` | server/service/lxc/relocate.go:200-211 | Relocating the LXC directory is their third step: two fields, their two rows, and the file |
| `SettingsRuns.RotateConsole` | server/service/security/jwt_secret.go:32-57 | A JWT rotation is their fourth step |
| `SettingsRuns.StepIsSound` | server/handler/settings.go:791-806 | Every restart, save, relocation and rotation keeps all fields of their kind and on one line, and all rows on one line |
| `SettingsRuns.SyncTakesOver` | server/config/config.go:995-1038 | A save leaves the file with exactly one spelling and the saved value for a managed name, however many lines it had before |
| `SettingsRuns.SaveStores` | server/handler/settings.go:791-806 | A save puts the running value of every setting into both stores |
| `SettingsRuns.RelocationStores` | server/service/lxc/relocate.go:200-211 | A relocation puts its two settings into both stores, and keeps every other setting that the table had as it runs |
| `SettingsRuns.StoredIsRestored` | server/config/config.go:219-350 | What a restart in any environment makes of a plain value that both stores hold |
| `SettingsRuns.StepOfKept` | server/handler/settings.go:791-806 | One event on a field that both stores hold: a save, relocation or rotation leaves it, a restart in any environment restores it, and the stores keep it even if the start writes secrets |
| `SettingsRuns.FieldKeepsIff` | server/handler/settings.go:791-806 | Over any run of restarts in any environments, relocations, rotations, and edits and saves of other fields, a saved plain field has its value in every state if and only if it survives each restart of the run |
| `SettingsRuns.LastingIff` | server/config/config.go:647-903 | A value survives every restart that passes in nothing for it, or a text that reads as it, if and only if it is none of the exceptions, which can be read off key and value |
| `SettingsRuns.SettingsOutliveRuns` | server/handler/settings.go:791-806 | Such a value, once saved and not edited since, stays in the running configuration, the file and the table over every run whose restarts pass in no other, as those of the installed service whose environment is the file |
| `SettingsRuns.RestoredTakesOver` | server/handler/settings.go:791-806 | After a restart in any environment and the next save, both stores hold the restored value |
| `SettingsRuns.DiskLimitsFallToZero` | server/config/config.go:618-620 | The three disk IOPS limits are 0 in the configuration, the file and the table after one restart and one save |
| `SettingsRuns.FreshBeginsRun` | server/config/config.go:219-350 | The first start without a file and without rows is a sound state to run from |
| `SettingsRuns.EverySaveStores` | server/handler/settings.go:791-806 | From a fresh install on, every save puts every setting into both stores, with no condition on the file |
| `ConfigStore.Console.LoadEnvFile` | server/config/config.go:192-216 | The line loop computes the environment of the specification: outside first, then the first non-empty line |
| `ConfigStore.Console.ReadForAppend` | server/config/config.go:418-432 | The loop builds the map in which later lines win |
| `ConfigStore.Console.AppendEnvKey` | server/config/config.go:407-447 | The new file is the canonical text of the updated map |
| `ConfigStore.Console.Render` | server/config/config.go:437-443 | Iterating the map in any order gives the one canonical text |
| `ConfigStore.Console.InitSecrets` | server/config/config.go:331-349 | File and secrets after the generation branches are those of the start specification |
| `ConfigStore.Console.Init` | server/config/config.go:219-350 | All fields come from the loaded environment, and the secrets from it or newly generated |
| `ConfigStore.Console.LoadFromDB` | server/config/config.go:647-903 | Iterating the rows in any order overlays each field independently, and the environment wins |
| `ConfigStore.Console.Start` | server/config/config.go:219-350 | A whole start on file and table gives the fields and secrets over which the restart theorems are proved |
| `ConfigStore.Console.ReadForSync` | server/config/config.go:1001-1011 | The loop builds the settings writer's reading of the file |
| `ConfigStore.Console.KeyToEnvVar` | server/config/config.go:564-642 | The map from keys to variables, as the table says |
| `ConfigStore.Console.Merge` | server/config/config.go:1013-1022 | Merging in any order changes the variables that have a setting and nothing else |
| `ConfigStore.Console.SyncEnvFile` | server/config/config.go:995-1038 | The new file is the old reading with exactly the exported variables replaced |
| `ConfigStore.Console.PersistRows` | server/handler/settings.go:792-802 | Zeros and empty texts are deleted, but for the two keys that keep a zero; other rows stay |
| `ConfigStore.Console.PersistSettings` | server/handler/settings.go:791-806 | Both stores after a save, as the restart theorems assume them |
| `ConfigStore.Console.SetJwt` | server/service/security/jwt_secret.go:59-82 | The loop with its break rewrites the first line of the JWT secret, or adds one at the end |
| `ConfigStore.Console.RotateJwt` | server/service/security/jwt_secret.go:59-93 | File and running secret after a rotation are those of the rotation step |
| `ConfigStore.SavesAreHarmless` | server/config/config.go:995-1038 | A settings save, and with it a relocation, never touches a secret, so it is an event of the secret theorem |
| `Secrets.HeldLoads` | server/config/config.go:192-216 | A name whose lines are all one text, with any blanks around name and value, is loaded as that text reads if and only if the environment passes in nothing else |
| `Secrets.AppendTakesOver` | server/config/config.go:407-447 | Appending a key makes all lines of that key say the new value |
| `Secrets.AppendHolds` | server/config/config.go:407-447 | Appending another key keeps a name and its value |
| `Secrets.SyncHolds` | server/config/config.go:995-1038 | A settings save keeps an unmanaged name and its value |
| `Secrets.WriteJwtHolds` | server/service/security/jwt_secret.go:59-93 | Rewriting the JWT line keeps every other name and its value |
| `Secrets.JwtLineIff` | server/service/security/jwt_secret.go:73-79 | A rotation rewrites a line exactly if the name stands directly before '=', blanks in front of it aside |
| `Secrets.RotationLoadsIff` | server/service/security/jwt_secret.go:59-93 | After a rotation the next start has the new secret if and only if that is passed in, or nothing is and no line before the rewritten one offers another text |
| `Secrets.SpacedJwtUndoesRotation` | server/service/security/jwt_secret.go:73-84 | Concretely, with the line KVM_JWT_SECRET = x every rotation is undone by the next start |
| `Secrets.RotatedSecretOutlivesRuns` | server/service/security/jwt_secret.go:30-57 | From a file with one plainly written line of the JWT secret at most, over any run of restarts, saves and rotations, every later start has the last rotated secret unless its environment passes in another |
| `Secrets.FirstStartSettles` | server/config/config.go:331-349 | From a file with at most one line a secret, in any spelling and in quotes or not, the first start leaves all three secrets in memory and in the file if and only if the environment agrees with the file and a JWT secret that becomes the legacy secret is plain |
| `Secrets.FirstStartKeeps` | server/config/config.go:331-349 | It keeps the secrets that were there, generates what was not, and takes the JWT secret as legacy secret only with a new security secret |
| `Secrets.FreshInstallSettles` | server/config/config.go:331-349 | Without any file the first start leaves all secrets in the file for the next one if and only if it generates both and the JWT secret is plain |
| `Secrets.CrashBetweenAppends` | server/config/config.go:343-344 | If the process dies between writing the security secret and the legacy secret, every later start is settled with the legacy secret of the old file; it has the secrets of the undisturbed start if and only if that was the JWT secret |
| `Secrets.CrashBeforeSecurity` | server/config/config.go:332-345 | If it dies before it writes the security secret, the next start splits the secrets as if nothing had happened, with the VM secret that was written |
| `Secrets.RestartKeepsIff` | server/config/config.go:331-349 | A start from a file that holds all secrets writes nothing, in any environment, and has those secrets if and only if the environment passes in no others |
| `Secrets.StepKeepsSecrets` | server/config/config.go:331-349 | Every save, rotation, and restart in an environment that agrees keeps a settled state and its three secrets |
| `Secrets.RunKeepsSecretsIff` | server/config/config.go:331-349 | Once settled, over any run with restarts in any environments the file holds the three secrets, and the process has them if and only if its last start passed in no others |
| `Secrets.LegacySurvivesIffPlain` | server/config/config.go:338-349 | A first start makes its JWT secret the legacy one; the next start agrees if and only if that text is passed in as legacy secret, or none is and it is a plain value |
| `Secrets.BlankInFrontIsLost` | server/config/config.go:338-349 | Concretely, a JWT secret with a blank in front that is passed in becomes the legacy secret with the blank, and comes back without it |
| `Secrets.SaveKeepsNameIff` | server/config/config.go:995-1038 | For any file, a name that is not saved keeps its value over save and restart if and only if it is passed in from outside, or the first usable line agrees with the first, in sort order, of the last lines of its spellings |
| `Secrets.SaveKeepsNameIffFirstIsLast` | server/config/config.go:995-1038 | With several lines in one spelling, that is: if and only if it is passed in, or the first usable line and the last line agree |
| `Secrets.StartHoldsAs` | server/config/config.go:407-447 | Whatever secrets a start writes, a plainly spelled line of any other name stays as it is |
| `Secrets.DuplicateNameChanges` | server/config/config.go:192-216 | Concretely, with two different lines for one name, the program starts with the first value and, after one save, with another |
| `RateLimit.RateLimiter.DropExpired` | server/middleware/ratelimit.go:86-90 | Deleting in any order leaves exactly the entries that are not older than a minute |
| `RateLimit.RateLimiter.Cleanup` | server/middleware/ratelimit.go:141-151 | One tick is the clean-up step of the specification |
| `RateLimit.RateLimiter.Allow` | server/middleware/ratelimit.go:64-124 | Table and answer after one request are those of the step specification, emergency purge included |
| `RateLimit.UnlimitedPasses` | server/middleware/ratelimit.go:64-73 | A request of a kind whose own limit is 0 is answered (true, -1, 0) in every state and leaves the table as it is |
| `RateLimit.OwnLimitDecides` | server/middleware/ratelimit.go:65-124 | Any other request is denied if and only if its address has a live counter that has reached the limit of its own kind; it is counted in any case, and what remains is that limit less the count |
| `RateLimit.ResetIsWhatIsLeft` | server/middleware/ratelimit.go:103-123 | The reset is 60 for a new window, else the full seconds left of the open one, and 1 at its end |
| `RateLimit.PurgeKeeps` | server/middleware/ratelimit.go:83-95 | Up to the cap the emergency branch does nothing; beyond it exactly the live entries stay, or none if those are too many |
| `RateLimit.TickKeepsLive` | server/middleware/ratelimit.go:141-151 | A tick of the cleaner leaves exactly the live entries |
| `RateLimit.Itoa` | server/middleware/ratelimit.go:241-251 | The loop prints the decimal digits of every non-negative number, and nothing at all for a negative one |
| `RateLimit.StepAnswers` | server/middleware/ratelimit.go:97-123 | On a table that lacks only dead entries one answer is that of the never-deleting limiter if and only if the requester does not lose its own live counter |
| `RateLimit.StepSimulates` | server/middleware/ratelimit.go:78-115 | Each step keeps that relation between the two tables |
| `RateLimit.CleanupIsInvisible` | server/middleware/ratelimit.go:64-124 | Over any run with a monotone clock, every answer is that of the limiter that never deletes, if and only if the requester does not lose its own live counter to the emergency branch |
| `RateLimit.AtMostTwiceTheLimit` | server/middleware/ratelimit.go:97-123 | In any closed minute one address gets at most twice the limit less one through: of public requests by the public limit, of authenticated ones by theirs, of both by the larger one |
| `RateLimit.RealLimiterBound` | server/middleware/ratelimit.go:64-124 | The same bounds for the real limiter with clean-ups and purges |
| `RateLimit.BoundIsReached` | server/middleware/ratelimit.go:64-124 | On the real limiter, for each kind that has a limit, there is a run that reaches the bound: the window is fixed, not sliding as the comment says |
| `RateLimit.LimitHoldsIff` | server/middleware/ratelimit.go:64-124 | All undisturbed runs of the real limiter keep a kind within its limit in every minute if and only if that limit is 1 |
| `RateLimit.SharedCounterBounds` | server/middleware/ratelimit.go:64-115 | On the real limiter, whatever clock, clean-ups and purges do, public and authenticated requests within one window each stay within their own limit, and all together within the larger one |
| `RateLimit.TableIsBounded` | server/middleware/ratelimit.go:82-95 | In every run the table holds at most 100001 entries |
| `RateLimit.RetryAdvice` | server/middleware/ratelimit.go:108-123 | A denial does not move the window; reset is 1 to 60; reset+1 seconds later always opens a new window, reset seconds later only if less than a second was left |
| `NicOrder.ListingIsSorted` | server/model/db.go:310-310 | The query returns the rows by their order, and rows of one order by id |
| `NicOrder.ListingUnique` | server/model/db.go:310-310 | Order by interface_order and id has one result |
| `NicOrder.NormalizeFromBlock` | server/model/db.go:323-333 | From temporary orders in a block followed by rows above it, the two phases number the listing 0 to n-1, even if phase-one writes are rejected |
| `NicOrder.NormalizeKeepsSequence` | server/model/db.go:310-333 | From non-negative orders the rows end at 0 to n-1 in their old sequence |
| `NicOrder.SecondRunWritesNothing` | server/model/db.go:313-322 | A second run changes nothing |
| `NicOrder.NoWriteIsRejected` | server/model/db.go:323-333 | Without a crash each of the 2n writes puts its row where it is meant to go, with or without the index |
| `NicOrder.CrashLeavesBlock` | server/model/db.go:323-333 | After any number of writes the next run lists the rows in a known sequence that forms a block |
| `NicOrder.CrashThenRerun` | server/model/db.go:323-334 | Stop after any of the 2n writes and run again: the orders are 0 to n-1, and the sequence is the resumed one |
| `NicOrder.OneTurn` | server/model/db.go:324-326 | Phase one rejects a row if and only if another row has its temporary order when its turn comes |
| `NicOrder.KnotWaits` | server/model/db.go:324-326 | Three stored orders that tie a knot leave a row waiting after phase one |
| `NicOrder.WaitingIsKnot` | server/model/db.go:324-326 | A row that waits after phase one comes from such a knot |
| `NicOrder.NumberedIff` | server/model/db.go:286-333 | From any table under the unique index, the run ends at 0 to n-1 if and only if no three stored orders tie a knot |
| `NicOrder.TwoCrashesBreakIt` | server/model/db.go:286-333 | With five interfaces, a crash after write 7 and another after one write of the rerun make the third run end with a row below zero |
| `NicRuns.NormalizeHalves` | server/model/db.go:323-333 | Under the index an undisturbed start that has something to fix leaves at most half as many rows below zero as it found |
| `NicRuns.AfterKeepsInjective` | server/model/db.go:286-333 | A start, dead after any number of writes, keeps the orders of a VM different and loses no row |
| `NicRuns.RunsNumber` | server/model/db.go:286-333 | n undisturbed starts end at 0 to n-1 in every VM with fewer than 2^n rows below zero |
| `NicRuns.AnyCrashesThenRuns` | server/model/db.go:286-333 | Whatever the orders were, and however often and wherever starts have died, n undisturbed starts number every VM with fewer than 2^n interfaces |
| `NicRuns.NumberedWithoutIndex` | server/model/db.go:286-333 | Without the index one undisturbed start numbers any orders, in their own sequence |
| `NicThreeCrashes.TwoRunsAreNotEnough` | server/model/db.go:286-333 | With eleven interfaces to renumber, starts that die after writes 10, 15 and 16 leave a VM that two undisturbed starts do not number |
| `VpcBindings.DistinctByVm` | server/model/db.go:268-289 | The table is free of duplicates if and only if every VM by itself is |
| `VpcBindings.BindingTable.EnsureIndex` | server/model/db.go:268-289 | Afterwards the index exists if and only if every VM has pairwise different orders, which is what the renumbering theorems start from |
| `VpcBindings.BindingTable.UpdateOrder` | server/model/db.go:325-328 | One write changes one row's order or is rejected by the index, touches no other VM and keeps the index's promise; a dead process writes nothing |
| `VpcBindings.BindingTable.RunPhase` | server/model/db.go:324-333 | The loop performs a prefix of the phase, all of it unless the process dies |
| `VpcBindings.BindingTable.CheckOrder` | server/model/db.go:313-319 | The loop with its break finds whether some row is not at its position |
| `VpcBindings.BindingTable.NormalizeVm` | server/model/db.go:305-333 | One VM is migrated to the point where the process died; other VMs are untouched |
| `VpcBindings.BindingTable.NormalizeAll` | server/model/db.go:294-338 | Over all names, every VM has gone through as many rounds as names come to it, or died in one of them, whether it can be numbered or not; VMs that no name comes to are untouched |
| `VpcBindings.LaterRoundsDoNothing` | server/model/db.go:304-322 | Coming to a VM again, under another spelling of its name, changes nothing if the first round numbered it |
| `VpcBindings.Migrate` | server/model/db.go:108-109 | Index first, then renumbering: how many rounds every VM went through, and whether the index exists |
| `VpcBindings.MigrateTwice` | server/model/db.go:294-338 | Start, die after any number of writes, start again: if the second start lives, every VM with non-negative orders has 0 to n-1 |
| `VpcBindings.TableSurvivesOneCrash` | server/model/db.go:294-338 | What a run that died and a run that did not promise together, VM by VM |
| `CidrAllocation.TrimCut` | server/model/db.go:406-409 | What is left starts and ends with neither a dot nor a blank, and is empty exactly if there was nothing else |
| `CidrAllocation.TrimCutParts` | server/model/db.go:406-406 | Trimming takes dots and blanks off both ends and nothing else |
| `CidrAllocation.PrefixOfCleaned` | server/model/db.go:406-406 | A setting that is a clean prefix with dots and blanks around it gives that prefix |
| `CidrAllocation.EmptyPrefix` | server/model/db.go:407-409 | A setting of dots and blanks alone gives 10.200 |
| `CidrAllocation.CidrIsInjective` | server/model/db.go:432-432 | Different indexes of one prefix give different networks |
| `CidrAllocation.SwitchTable.NextCidr` | server/model/db.go:430-437 | The search ends, at the free index with exactly k free ones below it |
| `CidrAllocation.SwitchTable.FillCidrs` | server/model/db.go:411-442 | Existing CIDRs stay; the k-th switch without one, by id, gets the k-th smallest free positive index |
| `CidrAllocation.KthFreeAscends` | server/model/db.go:425-437 | The k-th free index is one number and grows with k |
| `CidrAllocation.NewCidrsAreDistinct` | server/model/db.go:434-438 | A new CIDR differs from every other one, old or new |
| `CidrAllocation.UniqueStaysUnique` | server/model/db.go:445-445 | The unique index over non-empty CIDRs can be created afterwards if and only if it could before |
| `CidrAllocation.IndexWithinCount` | server/model/db.go:425-437 | Every assigned index is at most the number of switches |
| `CidrAllocation.HandedOutInWriting` | server/model/db.go:425-437 | Every network handed out for a clean prefix is the prefix, a dot, the decimal text of an index of at most the number of switches, and .0/24; the index is the free one with as many free ones below it as there are newcomers before |
| `CidrAllocation.OctetFitsIff` | server/model/db.go:432-432 | The k-th free index fits the octet if and only if more than k networks below index 256 are free |
| `ApiKeys.ApiKeyStore.Rotate` | server/service/api_key.go:57-106 | A rotation replaces or creates the user's row, unless another user has the id, which is an error that changes nothing |
| `ApiKeys.ApiKeyStore.Revoke` | server/service/api_key.go:109-117 | A revocation marks an unrevoked row and nothing else |
| `ApiKeys.ApiKeyStore.CheckRow` | server/service/api_key.go:131-158 | A right key is answered by the account's status, and lets in an active one only; the upgrade of the hash comes before the status tests |
| `ApiKeys.ApiKeyStore.Authenticate` | server/service/api_key.go:120-159 | For every pair of inputs: u is accepted if and only if the credential is right for u and the account of u is active, each refusal names the first test that failed, and a row is stamped exactly when its user is accepted |
| `ApiKeys.AuthenticateStamps` | server/service/api_key.go:136-157 | Authentication changes only the row that answers: its hash, and its stamp if the account is active |
| `ApiKeys.OneRowAnswers` | server/service/api_key.go:127-142 | Under the unique index at most one row can accept a credential, and only it can change |
| `ApiKeys.HashIsInjective` | server/service/api_key.go:180-189 | Between secrets of which neither with its colon starts the other, equal hashes mean equal keys and secrets |
| `ApiKeys.VerifiesOnly` | server/service/api_key.go:131-135 | A stored hash verifies for its own key and for no other |
| `ApiKeys.UpgradeKeepsKeysIff` | server/service/api_key.go:136-141 | Rewriting a legacy hash keeps the set of accepted keys if and only if neither secret, with its colon, starts the other one before a non-blank |
| `ApiKeys.SecretsCanBeConfused` | server/service/api_key.go:136-141 | Concretely, with secret a and legacy secret a:b the upgrade of key k puts key b:k out of force |
| `ApiKeys.AuthenticateKeepsAccepted` | server/service/api_key.go:120-159 | Authentication never changes which credentials are accepted, for any table and any inputs |
| `ApiKeyRuns.AcceptedIffInLedger` | server/service/api_key.go:127-135 | A credential is accepted if and only if it is the pair in the ledger, outer blanks aside |
| `ApiKeyRuns.KeyStepKeeps` | server/service/api_key.go:57-159 | Rotate, revoke and authenticate keep table and ledger together |
| `ApiKeyRuns.RunKeepsKeys` | server/service/api_key.go:57-159 | Over any run of the panel and its keys whose restarts pass in no other secrets, secrets and ledger stay true |
| `ApiKeyRuns.AcceptedIsTheLastGenerated` | server/service/api_key.go:57-159 | At every moment a user has at most one accepted pair: the last one generated, if not revoked since |
| `ApiKeyRuns.LoginIff` | server/service/api_key.go:120-159 | At every moment of a run a login lets a user in if and only if it presents the last pair generated for the user, not revoked since, and the account is active |
| `ApiKeyRuns.StampIsLastLogin` | server/service/api_key.go:155-158 | At every moment of a run the stamp of a row is the time of the last login that let its user in with the present pair |
| `ApiKeyRuns.ReplacedKeyStaysDead` | server/service/api_key.go:57-159 | A pair that is not accepted is never accepted again unless it is drawn anew |
| `ApiKeyRuns.KeyOutlivesRestarts` | server/service/api_key.go:131-141 | A key in use stays valid across any restarts, saves and logins, before and after its hash is upgraded |
| `ApiKeyRuns.FreshInstall` | server/service/api_key.go:57-159 | From a fresh install, over any restarts, saves, rotations and key operations, exactly the last generated and unrevoked pair of each user is accepted |
| `ApiKeyRuns.OldKeysSurviveTheSplit` | server/config/config.go:338-349 | Keys hashed under the JWT secret stay in force when the first start makes it the legacy secret |
| `ApiKeyRuns.CrashKeepsKeysIff` | server/config/config.go:343-344 | If the process dies in the middle of that split, the old keys stay in force if and only if the file already had the JWT secret as legacy secret |
| `ApiKeyRuns.CrashLosesOldKeys` | server/config/config.go:343-344 | If the file had no legacy secret, such a crash leaves no old key in force, whatever is presented |
| `ApiKeyRuns.OldKeyIsLost` | server/config/config.go:343-344 | Concretely, without a file and with one key under the default JWT secret, the key is valid before such a crash and not after it |
| `VirtioMemory.DivTruncates` | server/handler/vm.go:426-426 | Division of sizes truncates towards zero, as Go's does |
| `VirtioMemory.SpecOfBuilt` | server/handler/vm.go:23-71 | Reading the size of a machine built for s gives max(2, s), for every s |
| `VirtioMemory.Thirteenths` | server/handler/vm.go:30-60 | Thirteen tenths rounded up and ten thirteenths rounded down are inverse for every size |
| `VirtioMemory.SpecIsPositiveIff` | server/handler/vm.go:41-71 | The size is positive if and only if the machine is a dynamic virtio-mem one |
| `VirtioMemory.SpecOfSizes` | server/handler/vm.go:41-71 | The size of any dynamic virtio-mem machine is the larger of twice its initial GB and ten thirteenths of its maximum GB, and without both the GB of its memory |
| `VirtioMemory.DeltaIsGrowthIff` | server/handler/vm.go:421-469 | An edit reaches the size asked for, and its delta is the growth, if and only if that size is at least 2 or nothing is rebuilt; with an empty dynamic request nothing is rebuilt at all |
| `VirtioMemory.RequestIsApplied` | server/handler/vm.go:456-475 | A user's own request on any machine takes effect with its backend and switch, and with sizes measured against the memory asked for, else the machine's size, else what virsh reports |
| `VirtioMemory.UnchangedEditIsFree` | server/handler/vm.go:456-457 | The delta is 0 if and only if the size asked for is the one the machine has |
| `VirtioMemory.BuiltRequestPasses` | server/handler/vm.go:456-469 | A request built by the program passes its own sanitiser unchanged |
| `VirtioMemory.PlainDeltaIsGrowth` | server/handler/vm.go:470-475 | On a machine that is not virtio-mem the delta of a plain edit is its growth; maximum and current memory become the size asked for, and nothing else changes |
| `VirtioMemory.VirtioMachine.EditMemory` | server/handler/vm.go:421-475 | Delta and machine after one edit by a user, plain resize included |
| `VirtioMemory.VirtioMachine.EditAll` | server/handler/vm.go:421-469 | Over any run of edits the deltas add up to the final size less the first |
| `VirtioMemory.SanitizedIsBounded` | server/handler/helpers.go:52-98 | Backend, switch and autoballoon by the request; min is half the base, max thirteen tenths rounded up, initial is min for virtio-mem and the base for balloon; a wish is met within [initial, max] and moved to the nearer bound outside; nil stays nil |
| `VirtioMemory.SanitizeTwice` | server/handler/helpers.go:52-98 | Sanitising twice is sanitising once |
| `VirtioMemory.BuildersAgree` | server/handler/helpers.go:71-97 | The sanitiser and the builder agree, but for the current size, if and only if the backend is virtio_mem |
| `VirtioMemory.SpecOfSanitized` | server/handler/helpers.go:71-97 | The size read back from a sanitised virtio-mem request is the base size, at least 2 |
| `KernelModule.ModprobeDir.ReadFields` | server/service/kvm_module.go:77-87 | The word loop finds the last valid assignment of a line |
| `KernelModule.ModprobeDir.ReadLine` | server/service/kvm_module.go:69-87 | One line, with its comment cut, overrides what was found before if it assigns something |
| `KernelModule.ModprobeDir.ReadLines` | server/service/kvm_module.go:68-88 | The line loop finds the last line that assigns something |
| `KernelModule.ModprobeDir.Read` | server/service/kvm_module.go:55-92 | The reader returns the setting of the directory and whether there is one |
| `KernelModule.SettingIsLastAssignment` | server/service/kvm_module.go:61-91 | The setting is the last valid assignment over the concatenated uncommented lines of all files, and there is none only if nothing assigns |
| `KernelModule.LastSomeOfFlat` | server/service/kvm_module.go:63-88 | Searching file by file and line by line is searching the concatenation |
| `KernelModule.CommentsDoNotCount` | server/service/kvm_module.go:70-72 | Text behind a comment sign never changes what a line assigns |
| `KernelModule.ParseBoolIff` | server/service/kvm_module.go:36-45 | A text says yes or no if and only if, blanks aside, it is one of five words each in any capitals |
| `KernelModule.WordAssigns` | server/service/kvm_module.go:77-87 | A word assigns something exactly if it is the option, '=' and such a text |
| `KernelModule.LineByWords` | server/service/kvm_module.go:69-87 | A line counts only if its first two words are options and kvm_intel, and then by its further words |
| `KernelModule.FileByLines` | server/service/kvm_module.go:63-68 | A file counts line by line, with or without a newline at its end, and says nothing if it cannot be read |
| `KernelModule.ModprobeDir.Write` | server/service/kvm_module.go:136-154 | The file is replaced in place or inserted in name order |
| `KernelModule.PutKeepsOthers` | server/service/kvm_module.go:136-154 | A write keeps every file of another name |
| `KernelModule.PrintedAssigns` | server/service/kvm_module.go:136-146 | The printed file has one word that can assign anything, and that word assigns the value |
| `KernelModule.ReadAfterWrite` | server/service/kvm_module.go:55-154 | Reading after a write gives the value written unless a file later in name order sets the option, which then decides |
| `ByteFormat.PickUnit` | server/handler/settings.go:1119-1130 | For every int64 of at least 1024 the loop ends with div = 1024^(exp+1) <= bytes < 1024 div and exp below 6, without overflow |
| `ByteFormat.ExponentIsUnique` | server/handler/settings.go:1124-1128 | Only one exponent fits a byte count |
| `ByteFormat.Int64NeedsSixUnits` | server/handler/settings.go:1129-1129 | No int64 needs a letter beyond the last of KMGTPE |

## Left out

- HTTP handlers, routing, JSON, logging, virsh, iptables, OVS, ZFS and the other host commands: no property beyond passing values on.
- Errors of the file system and the database: every read and write of a file or a row succeeds, except that the unique indexes reject what breaks them.
- KVM_ENV_FILE: the path of the `.env` file is one and the same; that the file may redefine its own path is not modelled.
- Texts that are not valid UTF-8: a string is a sequence of Unicode scalar values, which sort as their UTF-8 bytes do.
- Settings.JoinPath: does not clean the joined path, so two derived directory defaults are those of filepath.Join only for a template directory that is already clean.
- igpu_passthrough_enabled: it has a variable but no field, so no save or start can touch it.
- Rows of the settings table under keys the program does not know: they are never read or written.
- SettingsRuns.FieldKeepsIff: speaks of fields that are plain (no line break, outer blanks or wrapping quotes) and of runs that pass in no multi-line text for a setting or for the JWT secret; the first save may need the file to spell the name in one way, which it does from a fresh install on.
- Validation of settings by the handler before they are saved: an edit is any value of the field's kind.
- Fields of Config that no save exports, such as the port and the database path: Init alone sets them.
- Crashes inside a restart after the first start, inside a save or inside a rotation: each of these is one step, as the file is written by one call; a crash while that call truncates the file is not modelled.
- Secrets.RunKeepsSecretsIff: asks that each secret name has at most one distinct line at first, which may carry blanks and quotes; without that it is false, as Secrets.DuplicateNameChanges shows.
- How systemd parses the file that it passes in as environment: the environment is any map.
- SettingsRuns.RelocationStores: SetSetting gives the row any text; that GORM does not update to an empty one, which only an empty import directory could be, is not modelled.
- Generated keys and tokens: taken as words without blanks or quotes, which is what the base64 URL alphabet gives; randomness itself is not modelled.
- RateLimit.CleanupIsInvisible: the clock is read before the lock is taken, so readings that do not go back in lock order are a precondition.
- RateLimit.RetryAdvice: seconds are exact quotients of nanoseconds; the source computes them in floating point.
- Changes of limiter configuration at run time and the choice of the client address: the limiter sees an address and a flag.
- NIC bindings of rows whose VM name has outer blanks: the migration never looks them up, and they are covered as untouched.
- Stages 0 and 1 of the CIDR migration (old column names): they copy a column and add no property of their own.
- SHA-256: taken as injective on its input text; comparing in constant time is not modelled.
- The displayed key prefix, creation time and soft deletion of API keys: no decision depends on them.
- How the hypervisor stores a dynamic-memory request: a machine is assumed to carry the sizes of the request in MB.
- VirtioMemory.BuildFromSpec: does not model overflow of 13 times a memory size beyond 64 bits.
- The one-decimal quotient that formatBytes prints: floating point; only divisor and unit are modelled.
- File permissions of the modprobe directory and the creation of the directory itself.
- prepareFnOSSystemDiskExpansion, login, tokens and the high-risk flow: their helpers are not part of this model.
