/** API keys over whole runs of the panel: restarts, settings saves and secret rotations in between. */
module ApiKeyRuns {
  import opened Text
  import opened ApiKeys
  import E = EnvFile
  import RoundTrip = EnvRoundTrip
  import S = Secrets

  datatype KeyEvent =
    | Rotate(user: nat, id: string, key: string)
    | Revoke(user: nat)
    | Authenticate(id: string, key: string, now: int, users: map<nat, Status>)

  /** The running process, its .env file, and the table of keys. */
  datatype World = World(panel: S.State, rows: Table)

  datatype Happening = Panel(e: S.Event) | Keys(k: KeyEvent)

  /** What has happened so far, oldest first. */
  datatype Past = Nothing | Then(past: Past, last: Happening)

  ghost function After(w: World, past: Past): World {
    match past
    case Nothing => w
    case Then(p, h) => Step(After(w, p), h)
  }

  ghost function Step(w: World, h: Happening): World {
    match h
    case Panel(e) => w.(panel := S.Step(w.panel, e))
    case Keys(k) => w.(rows := KeyStep(w.rows, w.panel.security, w.panel.legacy, k))
  }

  function KeyStep(t: Table, secret: string, legacy: string, k: KeyEvent): Table {
    match k
    case Rotate(user, id, key) => Rotated(t, user, id, key, secret)
    case Revoke(user) => Revoked(t, user)
    case Authenticate(id, key, now, users) => AfterAuthenticate(t, users, secret, legacy, id, key, now)
  }

  /** Tokens are drawn without blanks. */
  predicate Drawn(k: KeyEvent) {
    k.Rotate? ==> Token(k.id) && Token(k.key)
  }

  /** The panel's own events are those that its secrets survive: no restart passes in others. */
  ghost predicate Allowed(s: S.State, past: Past) {
    match past
    case Nothing => true
    case Then(p, h) => Allowed(s, p) && AllowedStep(s, h)
  }

  ghost predicate AllowedStep(s: S.State, h: Happening) {
    match h
    case Panel(e) => S.Admissible(s, e)
    case Keys(k) => Drawn(k)
  }

  // ---------------------------------------------------------------- the ledger

  datatype Pair = Pair(id: string, key: string)

  /** Who holds which pair: the last one generated, until it is revoked. */
  type Ledger = map<nat, Pair>

  ghost function LedgerStep(t: Table, ledger: Ledger, h: Happening): Ledger {
    match h
    case Panel(_) => ledger
    case Keys(Rotate(user, id, key)) => if IdTaken(t, user, id) then ledger else ledger[user := Pair(id, key)]
    case Keys(Revoke(user)) => ledger - {user}
    case Keys(Authenticate(_, _, _, _)) => ledger
  }

  ghost function LedgerAfter(w: World, ledger: Ledger, past: Past): Ledger {
    match past
    case Nothing => ledger
    case Then(p, h) => LedgerStep(After(w, p).rows, LedgerAfter(w, ledger, p), h)
  }

  /** The row is unrevoked exactly if the ledger has a pair for its user, and then holds that pair's
      id and its hash under the current or the legacy secret. */
  predicate Explains(ledger: Ledger, t: Table, user: nat, secret: string, legacy: string) {
    && (user in ledger <==> user in t && !t[user].revoked)
    && (user in ledger ==>
          && Token(ledger[user].id) && Token(ledger[user].key)
          && Answers(t[user], ledger[user].id, ledger[user].key, secret, legacy))
  }

  ghost predicate Kept(ledger: Ledger, t: Table, secret: string, legacy: string) {
    UniqueIds(t) && forall user :: Explains(ledger, t, user, secret, legacy)
  }

  /** A credential is accepted exactly if it is the pair in the ledger, blanks around it aside. */
  lemma {:induction false} AcceptedIffInLedger(ledger: Ledger, t: Table, secret: string, legacy: string,
                                               user: nat, id: string, key: string)
    requires Kept(ledger, t, secret, legacy) && Separate(secret, legacy)
    ensures Accepts(t, secret, legacy, user, id, key) <==> user in ledger && ledger[user] == Pair(Trim(id), Trim(key))
  {
    assert Explains(ledger, t, user, secret, legacy);
    if user in ledger && Trim(key) != "" {
      TrimGivesTokens(key);
      HeldKeyOnly(t[user].hash, ledger[user].key, secret, legacy, Trim(key));
    }
  }

  lemma {:induction false} HeldKeyOnly(hash: Digest, key: string, secret: string, legacy: string, k: string)
    requires Token(key) && Token(k) && Separate(secret, legacy) && Verifies(hash, key, secret, legacy)
    ensures Verifies(hash, k, secret, legacy) <==> k == key
  {
    VerifiesOnly(key, secret, legacy, k);
  }

  lemma {:induction false} RotateKeeps(ledger: Ledger, t: Table, secret: string, legacy: string,
                                       u: nat, id: string, key: string)
    requires Kept(ledger, t, secret, legacy) && Token(id) && Token(key) && !IdTaken(t, u, id)
    ensures Kept(ledger[u := Pair(id, key)], Rotated(t, u, id, key, secret), secret, legacy)
  {
    var ledger', t' := ledger[u := Pair(id, key)], Rotated(t, u, id, key, secret);
    forall user ensures Explains(ledger', t', user, secret, legacy) {
      assert Explains(ledger, t, user, secret, legacy);
    }
  }

  lemma {:induction false} RevokeKeeps(ledger: Ledger, t: Table, secret: string, legacy: string, u: nat)
    requires Kept(ledger, t, secret, legacy)
    ensures Kept(ledger - {u}, Revoked(t, u), secret, legacy)
  {
    forall user ensures Explains(ledger - {u}, Revoked(t, u), user, secret, legacy) {
      assert Explains(ledger, t, user, secret, legacy);
    }
  }

  lemma {:induction false} AuthenticateKeeps(ledger: Ledger, t: Table, secret: string, legacy: string,
                                             id: string, key: string, now: int, users: map<nat, Status>)
    requires Kept(ledger, t, secret, legacy) && Separate(secret, legacy)
    ensures Kept(ledger, AfterAuthenticate(t, users, secret, legacy, id, key, now), secret, legacy)
  {
    var t' := AfterAuthenticate(t, users, secret, legacy, id, key, now);
    forall user ensures Explains(ledger, t', user, secret, legacy) {
      assert Explains(ledger, t, user, secret, legacy);
      AcceptedIffInLedger(ledger, t, secret, legacy, user, id, key);
    }
  }

  /** One key operation keeps table and ledger together. */
  lemma {:induction false} KeyStepKeeps(ledger: Ledger, t: Table, secret: string, legacy: string, k: KeyEvent)
    requires Kept(ledger, t, secret, legacy) && Separate(secret, legacy) && Drawn(k)
    ensures Kept(LedgerStep(t, ledger, Keys(k)), KeyStep(t, secret, legacy, k), secret, legacy)
  {
    match k
    case Rotate(user, id, key) =>
      if !IdTaken(t, user, id) {
        RotateKeeps(ledger, t, secret, legacy, user, id, key);
      }
    case Revoke(user) => RevokeKeeps(ledger, t, secret, legacy, user);
    case Authenticate(id, key, now, users) => AuthenticateKeeps(ledger, t, secret, legacy, id, key, now, users);
  }

  /** Over any run from a settled start, the secrets and the ledger stay true. */
  lemma {:induction false} RunKeepsKeys(w: World, ledger: Ledger, past: Past)
    requires S.Settled(w.panel) && Separate(w.panel.security, w.panel.legacy) && Allowed(w.panel, past)
    requires Kept(ledger, w.rows, w.panel.security, w.panel.legacy)
    ensures var now := After(w, past);
            && S.Settled(now.panel) && S.SameSecrets(w.panel, now.panel)
            && Kept(LedgerAfter(w, ledger, past), now.rows, now.panel.security, now.panel.legacy)
  {
    match past
    case Nothing =>
    case Then(p, h) =>
      RunKeepsKeys(w, ledger, p);
      var before := After(w, p);
      match h
      case Panel(e) => S.StepKeepsSecrets(before.panel, e);
      case Keys(k) =>
        KeyStepKeeps(LedgerAfter(w, ledger, p), before.rows, before.panel.security, before.panel.legacy, k);
  }

  /** At every moment each user has at most one accepted pair: the last one generated, unless revoked. */
  lemma {:induction false} AcceptedIsTheLastGenerated(w: World, ledger: Ledger, past: Past,
                                                      user: nat, id: string, key: string)
    requires S.Settled(w.panel) && Separate(w.panel.security, w.panel.legacy) && Allowed(w.panel, past)
    requires Kept(ledger, w.rows, w.panel.security, w.panel.legacy)
    ensures var now, held := After(w, past), LedgerAfter(w, ledger, past);
            Accepts(now.rows, now.panel.security, now.panel.legacy, user, id, key)
            <==> user in held && held[user] == Pair(Trim(id), Trim(key))
  {
    RunKeepsKeys(w, ledger, past);
    var now := After(w, past);
    AcceptedIffInLedger(LedgerAfter(w, ledger, past), now.rows, now.panel.security, now.panel.legacy, user, id, key);
  }

  /** At every moment of a run a login lets a user in exactly if it presents the last pair generated for
      the user, not revoked since, and the account is active at that moment. */
  lemma {:induction false} LoginIff(w: World, ledger: Ledger, past: Past, users: map<nat, Status>,
                                    user: nat, id: string, key: string, answer: Answer)
    requires S.Settled(w.panel) && Separate(w.panel.security, w.panel.legacy) && Allowed(w.panel, past)
    requires Kept(ledger, w.rows, w.panel.security, w.panel.legacy)
    requires var now := After(w, past);
             AnswersRightly(now.rows, users, now.panel.security, now.panel.legacy, id, key, answer)
    ensures var held := LedgerAfter(w, ledger, past);
            answer == Accepted(user)
            <==> user in held && held[user] == Pair(Trim(id), Trim(key)) && user in users && users[user] == Active
  {
    AcceptedIsTheLastGenerated(w, ledger, past, user, id, key);
  }

  function Stamp(t: Table, user: nat): Option<int> {
    if user in t then t[user].lastUsed else None
  }

  /** The time to remember after a key operation: a new pair starts afresh, a login that lets the user in
      counts, and nothing else does. */
  function StampAfter(t: Table, held: Ledger, sofar: Option<int>, k: KeyEvent, user: nat): Option<int> {
    match k
    case Rotate(u, id, _) => if u == user && !IdTaken(t, u, id) then None else sofar
    case Revoke(_) => sofar
    case Authenticate(id, key, now, users) =>
      if user in held && held[user] == Pair(Trim(id), Trim(key)) && user in users && users[user] == Active
      then Some(now) else sofar
  }

  lemma {:induction false} KeyStepStamps(t: Table, held: Ledger, secret: string, legacy: string, k: KeyEvent, user: nat)
    requires Kept(held, t, secret, legacy) && Separate(secret, legacy)
    ensures Stamp(KeyStep(t, secret, legacy, k), user) == StampAfter(t, held, Stamp(t, user), k, user)
  {
    match k
    case Rotate(_, _, _) =>
    case Revoke(_) =>
    case Authenticate(id, key, now, users) =>
      AcceptedIffInLedger(held, t, secret, legacy, user, id, key);
      assert Explains(held, t, user, secret, legacy);
      if user in t {
        AuthenticateStamps(t, users, secret, legacy, id, key, now, user);
      }
  }

  /** When a user last got in with the pair that it has now. */
  ghost function LastLogin(w: World, ledger: Ledger, past: Past, user: nat): Option<int> {
    match past
    case Nothing => Stamp(w.rows, user)
    case Then(p, Panel(_)) => LastLogin(w, ledger, p, user)
    case Then(p, Keys(k)) =>
      StampAfter(After(w, p).rows, LedgerAfter(w, ledger, p), LastLogin(w, ledger, p, user), k, user)
  }

  /** The stamp of a row is the time of the last login that let its user in: no login of a user who was
      not active, or with another pair, ever shows in it. */
  lemma {:induction false} StampIsLastLogin(w: World, ledger: Ledger, past: Past, user: nat)
    requires S.Settled(w.panel) && Separate(w.panel.security, w.panel.legacy) && Allowed(w.panel, past)
    requires Kept(ledger, w.rows, w.panel.security, w.panel.legacy)
    ensures Stamp(After(w, past).rows, user) == LastLogin(w, ledger, past, user)
  {
    match past
    case Nothing =>
    case Then(p, h) =>
      StampIsLastLogin(w, ledger, p, user);
      RunKeepsKeys(w, ledger, p);
      var now := After(w, p);
      match h
      case Panel(_) =>
      case Keys(k) =>
        KeyStepStamps(now.rows, LedgerAfter(w, ledger, p), now.panel.security, now.panel.legacy, k, user);
  }

  predicate Generates(past: Past, user: nat, pair: Pair) {
    match past
    case Nothing => false
    case Then(p, h) => Generates(p, user, pair) || h == Keys(Rotate(user, pair.id, pair.key))
  }

  predicate Disturbs(past: Past, user: nat) {
    match past
    case Nothing => false
    case Then(p, h) => Disturbs(p, user) || (h.Keys? && !h.k.Authenticate? && h.k.user == user)
  }

  lemma {:induction false} LedgerNeedsGeneration(w: World, ledger: Ledger, past: Past, user: nat, pair: Pair)
    requires !(user in ledger && ledger[user] == pair) && !Generates(past, user, pair)
    ensures var held := LedgerAfter(w, ledger, past); !(user in held && held[user] == pair)
  {
    match past
    case Nothing =>
    case Then(p, h) => LedgerNeedsGeneration(w, ledger, p, user, pair);
  }

  /** A pair that is not accepted now is never accepted again unless it is drawn anew. */
  lemma {:induction false} ReplacedKeyStaysDead(w: World, ledger: Ledger, past: Past,
                                                user: nat, id: string, key: string)
    requires S.Settled(w.panel) && Separate(w.panel.security, w.panel.legacy) && Allowed(w.panel, past)
    requires Kept(ledger, w.rows, w.panel.security, w.panel.legacy)
    requires !Accepts(w.rows, w.panel.security, w.panel.legacy, user, id, key)
    requires !Generates(past, user, Pair(Trim(id), Trim(key)))
    ensures var now := After(w, past); !Accepts(now.rows, now.panel.security, now.panel.legacy, user, id, key)
  {
    AcceptedIsTheLastGenerated(w, ledger, Nothing, user, id, key);
    LedgerNeedsGeneration(w, ledger, past, user, Pair(Trim(id), Trim(key)));
    AcceptedIsTheLastGenerated(w, ledger, past, user, id, key);
  }

  lemma {:induction false} UndisturbedLedger(w: World, ledger: Ledger, past: Past, user: nat)
    requires !Disturbs(past, user)
    ensures var held := LedgerAfter(w, ledger, past);
            (user in held <==> user in ledger) && (user in ledger ==> held[user] == ledger[user])
  {
    match past
    case Nothing =>
    case Then(p, h) => UndisturbedLedger(w, ledger, p, user);
  }

  /** A key in use, hashed under the current secret or the legacy one, stays valid across any
      restarts, saves and logins, before and after its hash is upgraded. */
  lemma {:induction false} KeyOutlivesRestarts(w: World, ledger: Ledger, past: Past, user: nat, id: string, key: string)
    requires S.Settled(w.panel) && Separate(w.panel.security, w.panel.legacy) && Allowed(w.panel, past)
    requires Kept(ledger, w.rows, w.panel.security, w.panel.legacy)
    requires Accepts(w.rows, w.panel.security, w.panel.legacy, user, id, key) && !Disturbs(past, user)
    ensures var now := After(w, past); Accepts(now.rows, now.panel.security, now.panel.legacy, user, id, key)
  {
    AcceptedIsTheLastGenerated(w, ledger, Nothing, user, id, key);
    UndisturbedLedger(w, ledger, past, user);
    AcceptedIsTheLastGenerated(w, ledger, past, user, id, key);
  }

  /** Keys hashed under the JWT secret, before there was a security secret, stay in force when the
      first start splits the two and makes the JWT secret the legacy one. */
  lemma {:induction false} OldKeysSurviveTheSplit(file: string, env: map<string, string>, newVm: string,
                                                  newSecurity: string, ledger: Ledger, t: Table)
    requires E.Getenv(env, S.SECURITY_SECRET) == ""
    requires var s := S.StartIn(file, env, newVm, newSecurity); Kept(ledger, t, s.jwt, "")
    ensures var s := S.StartIn(file, env, newVm, newSecurity); Kept(ledger, t, s.security, s.legacy)
  {
    var s := S.StartIn(file, env, newVm, newSecurity);
    forall user ensures Explains(ledger, t, user, s.security, s.legacy) {
      assert Explains(ledger, t, user, s.jwt, "");
    }
  }

  /** The same over a process that dies in the middle of that split: the old keys stay in force exactly
      if the file already had the JWT secret as legacy secret. */
  lemma {:induction false} CrashKeepsKeysIff(file: string, outside: map<string, string>, newVm: string,
                                             newSecurity: string, vm: string, legacy: string,
                                             later: map<string, string>, newVm': string, newSecurity': string,
                                             ledger: Ledger, t: Table)
    requires S.HoldsAtFirst(file, vm, "", legacy) && S.Agrees(outside, S.VM_SECRET, vm)
    requires E.Getenv(outside, S.SECURITY_SECRET) == ""
    requires (vm == "" ==> S.Generated(newVm)) && S.Generated(newSecurity)
    requires S.AgreesWith(later, S.Start(file, outside, newVm, newSecurity).(legacy := legacy))
    requires Kept(ledger, t, S.JwtAt(file, outside), "") && ledger != map[] && newSecurity != S.JwtAt(file, outside)
    ensures var s := S.Start(S.CutShort(file, outside, newVm, newSecurity), later, newVm', newSecurity');
            Kept(ledger, t, s.security, s.legacy) <==> legacy == S.JwtAt(file, outside)
  {
    S.CrashBetweenAppends(file, outside, newVm, newSecurity, vm, legacy, later, newVm', newSecurity');
    SecurityIsNew(file, outside, newVm, newSecurity);
    KeptUnderIff(ledger, t, S.JwtAt(file, outside), newSecurity, legacy);
  }

  lemma {:induction false} SecurityIsNew(file: string, outside: map<string, string>, newVm: string,
                                         newSecurity: string)
    requires E.Getenv(outside, S.SECURITY_SECRET) == "" && S.Held(file, S.SECURITY_SECRET, "")
    ensures S.Start(file, outside, newVm, newSecurity).security == newSecurity
  {
    S.PlainNames();
    S.HeldLoads(file, S.SECURITY_SECRET, "", outside);
  }

  /** Keys under one secret stay in force under two others exactly if it is the legacy one of them. */
  lemma {:induction false} KeptUnderIff(ledger: Ledger, t: Table, was: string, secret: string, legacy: string)
    requires Kept(ledger, t, was, "") && ledger != map[] && secret != was && was != ""
    ensures Kept(ledger, t, secret, legacy) <==> legacy == was
  {
    var u :| u in ledger;
    assert Explains(ledger, t, u, was, "");
    SameHashSameSecret(ledger[u].key, was, secret);
    SameHashSameSecret(ledger[u].key, was, legacy);
    assert Kept(ledger, t, secret, legacy) ==> Explains(ledger, t, u, secret, legacy);
    if legacy == was {
      forall user ensures Explains(ledger, t, user, secret, legacy) {
        assert Explains(ledger, t, user, was, "");
      }
    }
  }

  lemma {:induction false} SameHashSameSecret(key: string, a: string, b: string)
    ensures HashWith(key, a) == HashWith(key, b) <==> a == b
  {
    if HashWith(key, a) == HashWith(key, b) {
      var whole := HashWith(key, a).preimage;
      assert |a| == |whole| - 1 - |key| == |b|;
      assert a == whole[..|a|] && b == whole[..|b|];
    }
  }

  /** If the file had no legacy secret, that process leaves no old key in force, whatever is presented. */
  lemma {:induction false} CrashLosesOldKeys(file: string, outside: map<string, string>, newVm: string,
                                             newSecurity: string, vm: string,
                                             later: map<string, string>, newVm': string, newSecurity': string,
                                             ledger: Ledger, t: Table, user: nat, id: string, key: string)
    requires S.HoldsAtFirst(file, vm, "", "") && S.Agrees(outside, S.VM_SECRET, vm)
    requires E.Getenv(outside, S.SECURITY_SECRET) == ""
    requires (vm == "" ==> S.Generated(newVm)) && S.Generated(newSecurity)
    requires S.AgreesWith(later, S.Start(file, outside, newVm, newSecurity).(legacy := ""))
    requires Kept(ledger, t, S.JwtAt(file, outside), "")
    requires newSecurity != S.JwtAt(file, outside) && Separate(newSecurity, S.JwtAt(file, outside))
    ensures var s := S.Start(S.CutShort(file, outside, newVm, newSecurity), later, newVm', newSecurity');
            !Accepts(t, s.security, s.legacy, user, id, key)
  {
    S.CrashBetweenAppends(file, outside, newVm, newSecurity, vm, "", later, newVm', newSecurity');
    SecurityIsNew(file, outside, newVm, newSecurity);
    NoKeyUnderAnother(ledger, t, S.JwtAt(file, outside), newSecurity, user, id, key);
  }

  lemma {:induction false} NoKeyUnderAnother(ledger: Ledger, t: Table, was: string, secret: string,
                                             user: nat, id: string, key: string)
    requires Kept(ledger, t, was, "") && secret != was && was != "" && Separate(secret, was)
    ensures !Accepts(t, secret, "", user, id, key)
  {
    assert Explains(ledger, t, user, was, "");
    if Accepts(t, secret, "", user, id, key) {
      TrimGivesTokens(key);
      HashIsInjective(was, secret, ledger[user].key, Trim(key));
    }
  }

  lemma {:induction false} OneKeyIsKept(t: Table, id: string, key: string, secret: string)
    requires Token(id) && Token(key) && t == map[1 := KeyRow(id, HashWith(key, secret), false, None)]
    ensures Kept(map[1 := Pair(id, key)], t, secret, "") && Accepts(t, secret, "", 1, id, key)
  {
    TrimFixes(id);
    TrimFixes(key);
    forall user ensures Explains(map[1 := Pair(id, key)], t, user, secret, "") {
    }
  }

  /** A concrete case: no file, nothing from outside, and one key under the JWT secret. The key is valid
      before such a crash and not after it. */
  lemma {:induction false} OldKeyIsLost(t: Table, id: string, key: string, newVm: string, newSecurity: string,
                                        newVm': string, newSecurity': string)
    requires Token(id) && Token(key) && t == map[1 := KeyRow(id, HashWith(key, S.DEFAULT_JWT_SECRET), false, None)]
    requires S.Generated(newVm) && S.Generated(newSecurity)
    requires newSecurity != S.DEFAULT_JWT_SECRET && Separate(newSecurity, S.DEFAULT_JWT_SECRET)
    ensures Accepts(t, S.DEFAULT_JWT_SECRET, "", 1, id, key)
    ensures var s := S.Start(S.CutShort("", map[], newVm, newSecurity), map[], newVm', newSecurity');
            !Accepts(t, s.security, s.legacy, 1, id, key)
  {
    OneKeyIsKept(t, id, key, S.DEFAULT_JWT_SECRET);
    S.EmptyFileHoldsNone();
    RoundTrip.EmptyFileLoadsNothing(map[]);
    CrashLosesOldKeys("", map[], newVm, newSecurity, "", map[], newVm', newSecurity', map[1 := Pair(id, key)], t,
                      1, id, key);
  }

  /** From a fresh install on, whatever happens: a credential is accepted exactly if it is the last one
      generated for its user and not revoked since. */
  lemma {:induction false} FreshInstall(outside: map<string, string>, newVm: string, newSecurity: string, past: Past,
                                        user: nat, id: string, key: string)
    requires S.Generated(newVm) && S.Generated(newSecurity)
    requires E.Getenv(outside, S.VM_SECRET) == "" && E.Getenv(outside, S.SECURITY_SECRET) == ""
    requires RoundTrip.PlainValue(S.GetEnvOr(outside, S.JWT_SECRET, S.DEFAULT_JWT_SECRET))
    requires var s := S.Start("", outside, newVm, newSecurity); Separate(s.security, s.legacy)
    requires Allowed(S.Start("", outside, newVm, newSecurity), past)
    ensures var w := World(S.Start("", outside, newVm, newSecurity), map[]);
            var now, held := After(w, past), LedgerAfter(w, map[], past);
            Accepts(now.rows, now.panel.security, now.panel.legacy, user, id, key)
            <==> user in held && held[user] == Pair(Trim(id), Trim(key))
  {
    S.FreshInstallSettles(outside, newVm, newSecurity);
    var w := World(S.Start("", outside, newVm, newSecurity), map[]);
    EmptyTableIsKept(w.panel.security, w.panel.legacy);
    AcceptedIsTheLastGenerated(w, map[], past, user, id, key);
  }

  lemma {:induction false} EmptyTableIsKept(secret: string, legacy: string)
    ensures Kept(map[], map[], secret, legacy)
  {
  }
}
