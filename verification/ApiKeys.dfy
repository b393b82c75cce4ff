/** API keys: one row a user, rotated, revoked, and checked under the current or the legacy secret. */
module ApiKeys {
  import opened Text

  /** SHA-256 taken as collision free: a digest is known by the text it was made of. */
  datatype Digest = Digest(preimage: string)

  function HashWith(apiKey: string, secret: string): Digest {
    Digest(secret + ":" + apiKey)
  }

  datatype KeyRow = KeyRow(keyId: string, hash: Digest, revoked: bool, lastUsed: Option<int>)

  /** The table by its unique user_id. */
  type Table = map<nat, KeyRow>

  datatype Status = Active | Disabled | Other

  datatype Answer = Accepted(user: nat) | EmptyInput | Invalid | NoUser | UserDisabled | UserInactive

  // ---------------------------------------------------------------- the steps on the table

  /** The unique index on api_key_id. */
  ghost predicate UniqueIds(t: Table) {
    forall u, v | u in t && v in t && t[u].keyId == t[v].keyId :: u == v
  }

  predicate IdTaken(t: Table, user: nat, id: string) {
    exists v | v in t :: v != user && t[v].keyId == id
  }

  /** RotateUserAPIKey; a clash of ids is an error of the database and leaves the table alone. */
  function Rotated(t: Table, user: nat, id: string, key: string, secret: string): Table {
    if IdTaken(t, user, id) then t else t[user := KeyRow(id, HashWith(key, secret), false, None)]
  }

  function Revoked(t: Table, user: nat): Table {
    if user in t && !t[user].revoked then t[user := t[user].(revoked := true)] else t
  }

  /** The hash matches the key under the current secret, or under a legacy secret if there is one. */
  predicate Verifies(hash: Digest, key: string, secret: string, legacy: string) {
    hash == HashWith(key, secret) || (legacy != "" && hash == HashWith(key, legacy))
  }

  /** The row answers for this id and key. */
  predicate Answers(row: KeyRow, id: string, key: string, secret: string, legacy: string) {
    row.keyId == id && !row.revoked && Verifies(row.hash, key, secret, legacy)
  }

  /** The credential test of AuthenticateAPIKey: both parts trimmed and not empty. */
  predicate Accepts(t: Table, secret: string, legacy: string, user: nat, id: string, key: string) {
    && Trim(id) != "" && Trim(key) != ""
    && user in t && Answers(t[user], Trim(id), Trim(key), secret, legacy)
  }

  /** The row after its key was right: hashed under the current secret, and stamped if the user is active. */
  function Confirmed(row: KeyRow, users: map<nat, Status>, user: nat, key: string, secret: string, now: int): KeyRow {
    var row' := row.(hash := HashWith(key, secret));
    if user in users && users[user] == Active then row'.(lastUsed := Some(now)) else row'
  }

  /** The table after AuthenticateAPIKey: rows that do not answer stay as they are. */
  function AfterAuthenticate(t: Table, users: map<nat, Status>, secret: string, legacy: string,
                             id: string, key: string, now: int): Table {
    map u | u in t ::
      if Accepts(t, secret, legacy, u, id, key) then Confirmed(t[u], users, u, Trim(key), secret, now) else t[u]
  }

  function StatusAnswer(users: map<nat, Status>, user: nat): Answer {
    if user !in users then NoUser
    else if users[user] == Disabled then UserDisabled
    else if users[user] != Active then UserInactive
    else Accepted(user)
  }

  class ApiKeyStore {
    var rows: Table
    var users: map<nat, Status>
    var secret: string
    var legacy: string

    constructor (rows: Table, users: map<nat, Status>, secret: string, legacy: string)
      ensures this.rows == rows && this.users == users && this.secret == secret && this.legacy == legacy
    {
      this.rows, this.users, this.secret, this.legacy := rows, users, secret, legacy;
    }

    /** RotateUserAPIKey with the two random tokens it drew. */
    method Rotate(user: nat, keyId: string, apiKey: string) returns (ok: bool)
      requires UniqueIds(rows)
      modifies `rows
      ensures rows == Rotated(old(rows), user, keyId, apiKey, secret) && UniqueIds(rows)
      ensures ok <==> forall v | v in old(rows) && v != user :: old(rows)[v].keyId != keyId
    {
      ok := !IdTaken(rows, user, keyId);
      if ok {
        rows := rows[user := KeyRow(keyId, HashWith(apiKey, secret), false, None)];
      }
    }

    method Revoke(user: nat)
      requires UniqueIds(rows)
      modifies `rows
      ensures rows == Revoked(old(rows), user) && UniqueIds(rows)
    {
      if user in rows && !rows[user].revoked {
        rows := rows[user := rows[user].(revoked := true)];
      }
    }

    /** The second half of AuthenticateAPIKey: the row with this id is found, the key is trimmed. */
    method CheckRow(user: nat, key: string, now: int) returns (answer: Answer)
      requires user in rows
      modifies `rows
      ensures var right := Verifies(old(rows)[user].hash, key, secret, legacy);
              && (right ==> FitsStatus(answer, users, user)) && (!right ==> answer == Invalid)
              && rows == if right then old(rows)[user := Confirmed(old(rows)[user], users, user, key, secret, now)]
                         else old(rows)
    {
      if rows[user].hash != HashWith(key, secret) {
        if legacy == "" || rows[user].hash != HashWith(key, legacy) {
          return Invalid;
        }
        rows := rows[user := rows[user].(hash := HashWith(key, secret))];
      }
      answer := StatusAnswer(users, user);
      if answer.Accepted? {
        rows := rows[user := rows[user].(lastUsed := Some(now))];
      }
    }

    method Authenticate(apiKeyId: string, apiKey: string, now: int) returns (answer: Answer)
      requires UniqueIds(rows)
      modifies `rows
      ensures rows == AfterAuthenticate(old(rows), users, secret, legacy, apiKeyId, apiKey, now) && UniqueIds(rows)
      ensures AnswersRightly(old(rows), users, secret, legacy, apiKeyId, apiKey, answer)
      ensures forall u | u in rows ::
                rows[u].lastUsed == if answer == Accepted(u) then Some(now) else old(rows)[u].lastUsed
    {
      var id, key := Trim(apiKeyId), Trim(apiKey);
      if id == "" || key == "" {
        NobodyAnswers(rows, users, secret, legacy, apiKeyId, apiKey, now);
        return EmptyInput;
      }
      if !exists u | u in rows :: rows[u].keyId == id && !rows[u].revoked {
        NobodyAnswers(rows, users, secret, legacy, apiKeyId, apiKey, now);
        return Invalid;
      }
      var user :| user in rows && rows[user].keyId == id && !rows[user].revoked;
      OneRowAnswers(rows, users, secret, legacy, apiKeyId, apiKey, now, user);
      ghost var before := rows;
      answer := CheckRow(user, key, now);
      AnswerOfRow(before, users, secret, legacy, apiKeyId, apiKey, now, user, answer);
    }
  }

  /** What a right credential is answered: an account must be active to be let in. */
  predicate FitsStatus(answer: Answer, users: map<nat, Status>, user: nat) {
    && (answer == Accepted(user) <==> user in users && users[user] == Active)
    && (answer == UserDisabled <==> user in users && users[user] == Disabled)
    && (answer == UserInactive <==> user in users && users[user] == Other)
    && (answer == NoUser <==> user !in users)
  }

  /** The answer says who was accepted, or which test failed first. */
  ghost predicate AnswersRightly(t: Table, users: map<nat, Status>, secret: string, legacy: string,
                                 id: string, key: string, answer: Answer) {
    && (answer == EmptyInput <==> Trim(id) == "" || Trim(key) == "")
    && (answer == Invalid <==> answer != EmptyInput && forall u :: !Accepts(t, secret, legacy, u, id, key))
    && (forall u :: answer == Accepted(u)
                    <==> Accepts(t, secret, legacy, u, id, key) && u in users && users[u] == Active)
    && (answer == NoUser <==> exists u :: Accepts(t, secret, legacy, u, id, key) && u !in users)
    && (answer == UserDisabled
        <==> exists u :: Accepts(t, secret, legacy, u, id, key) && u in users && users[u] == Disabled)
    && (answer == UserInactive
        <==> exists u :: Accepts(t, secret, legacy, u, id, key) && u in users && users[u] == Other)
  }

  /** Where one user's credential is right and no other's, the answer by status is the right one. */
  lemma {:induction false} OneIsAnswered(t: Table, users: map<nat, Status>, secret: string, legacy: string,
                                         id: string, key: string, user: nat, answer: Answer)
    requires forall u :: Accepts(t, secret, legacy, u, id, key) <==> u == user
    requires FitsStatus(answer, users, user) && answer != EmptyInput && answer != Invalid
    requires forall u :: answer == Accepted(u) ==> u == user
    ensures AnswersRightly(t, users, secret, legacy, id, key, answer)
  {
    assert Accepts(t, secret, legacy, user, id, key);
  }

  /** What authentication does to a row: hash and stamp of the one that answers, nothing to the others. */
  lemma {:induction false} AuthenticateStamps(t: Table, users: map<nat, Status>, secret: string, legacy: string,
                                              id: string, key: string, now: int, u: nat)
    requires u in t
    ensures var t', right := AfterAuthenticate(t, users, secret, legacy, id, key, now),
                             Accepts(t, secret, legacy, u, id, key);
            && t'.Keys == t.Keys && t'[u].keyId == t[u].keyId && t'[u].revoked == t[u].revoked
            && t'[u].hash == (if right then HashWith(Trim(key), secret) else t[u].hash)
            && t'[u].lastUsed == if right && u in users && users[u] == Active then Some(now) else t[u].lastUsed
  {
  }

  lemma {:induction false} NobodyAnswers(t: Table, users: map<nat, Status>, secret: string, legacy: string,
                                         id: string, key: string, now: int)
    requires Trim(id) == "" || Trim(key) == "" || forall u | u in t :: t[u].keyId != Trim(id) || t[u].revoked
    ensures forall u :: !Accepts(t, secret, legacy, u, id, key)
    ensures AnswersRightly(t, users, secret, legacy, id, key,
                           if Trim(id) == "" || Trim(key) == "" then EmptyInput else Invalid)
    ensures AfterAuthenticate(t, users, secret, legacy, id, key, now) == t
  {
  }

  /** The unique index leaves at most one row to look at. */
  lemma {:induction false} OneRowAnswers(t: Table, users: map<nat, Status>, secret: string, legacy: string,
                                         id: string, key: string, now: int, user: nat)
    requires UniqueIds(t) && Trim(id) != "" && Trim(key) != ""
    requires user in t && t[user].keyId == Trim(id) && !t[user].revoked
    ensures var right := Verifies(t[user].hash, Trim(key), secret, legacy);
            && (forall u :: Accepts(t, secret, legacy, u, id, key) <==> u == user && right)
            && (!right ==> AnswersRightly(t, users, secret, legacy, id, key, Invalid))
            && var t' := if right then t[user := Confirmed(t[user], users, user, Trim(key), secret, now)] else t;
               AfterAuthenticate(t, users, secret, legacy, id, key, now) == t' && UniqueIds(t')
  {
    assert Accepts(t, secret, legacy, user, id, key) <==> Verifies(t[user].hash, Trim(key), secret, legacy);
  }

  lemma {:induction false} AnswerOfRow(t: Table, users: map<nat, Status>, secret: string, legacy: string,
                                       id: string, key: string, now: int, user: nat, answer: Answer)
    requires UniqueIds(t) && Trim(id) != "" && Trim(key) != ""
    requires user in t && t[user].keyId == Trim(id) && !t[user].revoked
    requires var right := Verifies(t[user].hash, Trim(key), secret, legacy);
             (right ==> FitsStatus(answer, users, user)) && (!right ==> answer == Invalid)
    ensures AnswersRightly(t, users, secret, legacy, id, key, answer)
    ensures var t' := AfterAuthenticate(t, users, secret, legacy, id, key, now);
            forall u | u in t' :: t'[u].lastUsed == if answer == Accepted(u) then Some(now) else t[u].lastUsed
  {
    OneRowAnswers(t, users, secret, legacy, id, key, now, user);
    if Verifies(t[user].hash, Trim(key), secret, legacy) {
      OneIsAnswered(t, users, secret, legacy, id, key, user, answer);
    }
  }

  // ---------------------------------------------------------------- the upgrade of a legacy hash

  /** A key k2 with a:k1 == b:k2 exists and is not changed by trimming. */
  predicate Confusable(a: string, b: string) {
    b + ":" < a + ":" && !IsSpace((a + ":")[|b| + 1])
  }

  /** No key under one secret reads as another key under the other. */
  predicate Separate(secret: string, legacy: string) {
    legacy == "" || (!Confusable(secret, legacy) && !Confusable(legacy, secret))
  }

  predicate Token(s: string) {
    s != "" && Trimmed(s)
  }

  lemma {:induction false} HashIsInjective(a: string, b: string, k1: string, k2: string)
    requires HashWith(k1, a) == HashWith(k2, b) && Token(k2) && !Confusable(a, b) && !Confusable(b, a) && Token(k1)
    ensures k1 == k2 && a == b
  {
    var whole := (a + ":") + k1;
    assert whole == (b + ":") + k2;
    if |a| < |b| {
      PrefixOfWhole(b, a, k2, k1);
      assert false;
    } else if |b| < |a| {
      PrefixOfWhole(a, b, k1, k2);
      assert false;
    } else {
      assert whole[..|a|] == a && whole[..|b|] == b;
      assert whole[|a| + 1..] == k1 && whole[|b| + 1..] == k2;
    }
  }

  lemma {:induction false} PrefixOfWhole(long: string, short: string, k1: string, k2: string)
    requires HashWith(k1, long) == HashWith(k2, short) && |short| < |long| && Token(k2)
    ensures Confusable(long, short)
  {
    var whole := (long + ":") + k1;
    assert whole == (short + ":") + k2;
    assert whole[..|short| + 1] == short + ":";
    assert (long + ":")[..|short| + 1] == short + ":";
    assert whole[|short| + 1] == k2[0] == (long + ":")[|short| + 1];
  }

  /** Rewriting a legacy hash under the current secret leaves the accepted keys alone exactly when
      neither secret, with its colon, starts the other one. */
  lemma {:induction false} UpgradeKeepsKeysIff(key: string, secret: string, legacy: string)
    requires Token(key) && legacy != "" && secret != legacy
    ensures (forall k | Token(k) ::
               Verifies(HashWith(key, legacy), k, secret, legacy) == Verifies(HashWith(key, secret), k, secret, legacy))
            <==> Separate(secret, legacy)
  {
    if Separate(secret, legacy) {
      forall k | Token(k)
        ensures Verifies(HashWith(key, legacy), k, secret, legacy) == Verifies(HashWith(key, secret), k, secret, legacy)
      {
        VerifiesOnly(key, secret, legacy, k);
      }
    } else if Confusable(legacy, secret) {
      var k := Shifted(legacy, secret, key);
      ShiftedHashes(legacy, secret, key);
      DifferentSecrets(secret, legacy, key, k);
    } else {
      var k := Shifted(secret, legacy, key);
      ShiftedHashes(secret, legacy, key);
      DifferentSecrets(legacy, secret, key, k);
    }
  }

  /** A hash of a key verifies for that key and, between separate secrets, for no other. */
  lemma {:induction false} VerifiesOnly(key: string, secret: string, legacy: string, k: string)
    requires Token(key) && Token(k) && Separate(secret, legacy)
    ensures Verifies(HashWith(key, secret), k, secret, legacy) <==> k == key
    ensures legacy != "" ==> (Verifies(HashWith(key, legacy), k, secret, legacy) <==> k == key)
  {
    forall a, b | (a == secret || (legacy != "" && a == legacy)) && (b == secret || (legacy != "" && b == legacy))
                  && HashWith(key, a) == HashWith(k, b)
      ensures k == key
    {
      ItselfIsNotConfusable(a);
      HashIsInjective(a, b, key, k);
    }
  }

  lemma {:induction false} ItselfIsNotConfusable(a: string)
    ensures !Confusable(a, a)
  {
  }

  /** What is left of a:key after taking off b and its colon. */
  function Shifted(a: string, b: string, key: string): string
    requires b + ":" < a + ":"
  {
    (a + ":")[|b| + 1..] + key
  }

  lemma {:induction false} ShiftedHashes(a: string, b: string, key: string)
    requires Confusable(a, b) && Token(key)
    ensures Token(Shifted(a, b, key)) && Shifted(a, b, key) != key
    ensures HashWith(Shifted(a, b, key), b) == HashWith(key, a)
  {
  }

  /** If a:key and b:k are one text, then neither a:k nor b:k is b:key. */
  lemma {:induction false} DifferentSecrets(b: string, a: string, key: string, k: string)
    requires HashWith(k, b) == HashWith(key, a) && |b| < |a|
    ensures HashWith(key, b) != HashWith(k, b) && HashWith(key, b) != HashWith(k, a)
  {
  }

  /** Two such secrets, and a key that the upgrade puts out of force. */
  lemma {:induction false} SecretsCanBeConfused()
    ensures Confusable("a:b", "a") && !Separate("a", "a:b")
    ensures Verifies(HashWith("k", "a:b"), "b:k", "a", "a:b") && !Verifies(HashWith("k", "a"), "b:k", "a", "a:b")
  {
    assert "a:b" + ":" + "k" == "a" + ":" + "b:k" == "a:b:k";
    assert |"a" + ":" + "k"| == 3 && |"a" + ":" + "b:k"| == 5 && |"a:b" + ":" + "b:k"| == 7;
  }

  lemma {:induction false} TrimGivesTokens(s: string)
    requires Trim(s) != ""
    ensures Token(Trim(s)) && Trim(Trim(s)) == Trim(s)
  {
  }

  /** AuthenticateAPIKey never changes which credentials are accepted. */
  lemma {:induction false} AuthenticateKeepsAccepted(t: Table, users: map<nat, Status>, secret: string, legacy: string,
                                                     id0: string, key0: string, now: int,
                                                     user: nat, id: string, key: string)
    requires Separate(secret, legacy)
    ensures Accepts(AfterAuthenticate(t, users, secret, legacy, id0, key0, now), secret, legacy, user, id, key)
            <==> Accepts(t, secret, legacy, user, id, key)
  {
    var t' := AfterAuthenticate(t, users, secret, legacy, id0, key0, now);
    if user in t && Trim(key) != "" && Accepts(t, secret, legacy, user, id0, key0) {
      TrimGivesTokens(key);
      TrimGivesTokens(key0);
      VerifiesOnly(Trim(key0), secret, legacy, Trim(key));
      assert t'[user].hash == HashWith(Trim(key0), secret) && t'[user].keyId == t[user].keyId && !t'[user].revoked;
    }
  }
}
