/**
 The store itself: tables updated in place, one SQL statement after the other,
 inside transactions that roll back when they are refused. The statements of a transaction
 are proved to have the effect its specification gives; the transactions themselves are
 proved to keep the safety invariant, to leave nothing behind when they are refused, and
 to establish what their callers rely on.
 */
module OfflineStore {
  import opened Outcomes
  import opened OfflineTables
  import opened OfflineTransactions
  import opened OfflineInvariant
  import opened OfflineDiscovery
  import opened OfflineEffects

  class Store {
    var now: int
    var enabled: bool
    var mode: Mode
    var accounts: map<AccountId, bool>
    var auths: map<AccountId, Status>
    var identities: map<IdentityId, Identity>
    var keys: map<KeyId, Key>
    var sessions: map<SessionId, Session>
    var appearances: map<IdentityId, Appearance>

    function Tables(): Db
      reads this
    {
      Db(now, enabled, mode, accounts, auths, identities, keys, sessions, appearances)
    }

    constructor (start: int)
      ensures Tables() == Fresh(start)
    {
      now, enabled, mode := start, false, ModeAutomatic;
      accounts, auths, identities, keys, sessions, appearances := map[], map[], map[], map[], map[], map[];
    }

    method SetTables(db: Db)
      modifies this
      ensures Tables() == db
    {
      now := db.now;
      enabled, mode, accounts, auths := db.enabled, db.mode, db.accounts, db.auths;
      identities, keys, sessions, appearances := db.identities, db.keys, db.sessions, db.appearances;
    }

    /** Undoes every table update since `before`. */
    method Rollback(before: Db)
      modifies this
      ensures Tables() == before
    {
      SetTables(before);
    }

    /** Sessions, appearances, identities: the three statements every retirement issues, in this order. */
    method RetireOwners(owners: set<IdentityId>, t: int)
      modifies this
      ensures Tables() == Retire(old(Tables()), owners, t)
    {
      sessions := RevokeSessions(sessions, SessionsOf(Tables(), owners), t);
      appearances := appearances - owners;
      identities := Unbind(identities, owners);
    }

    method RevokeIdentityRows(i: IdentityId, t: int)
      modifies this
      ensures Tables() == RevokeIdentity(old(Tables()), i, t)
    {
      keys := RevokeKeys(keys, i, t);
      RetireOwners({i}, t);
    }

    method InvalidateAllSessions(t: int)
      modifies this
      ensures Tables() == InvalidateSessions(old(Tables()), t)
    {
      sessions := RevokeSessions(sessions, sessions.Keys, t);
      identities := Unbind(identities, identities.Keys);
      appearances := map[];
    }

    // ----- the statements of each transaction -----

    method RequestStatements(account: AccountId, audited: bool)
      returns (r: Result<Status, Error>)
      modifies this
      ensures Requested(Tables(), r) ==
              Request(old(Tables()), account, audited)
    {
      var before := Tables();
      if !enabled {
        return Err(Disabled);
      }
      if !ActiveAccount(Tables(), account) {
        return Err(Unauthenticated);
      }
      var previous := StatusOf(Tables(), account);
      var next := NextStatus(previous, mode);
      if previous != next {
        auths := auths[account := next];
        if !audited {
          Rollback(before);
          return Err(NotAdmitted);
        }
      }
      return Ok(next);
    }

    method IssueStatements(account: AccountId, labelled: bool, i: IdentityId, k: KeyId, secret: Secret,
                    settings: Settings, audited: bool, t: int, u: int)
      returns (r: Result<int, Error>)
      modifies this
      ensures Outcome(Tables(), r) ==
              Issue(old(Tables()), account, labelled, i, k, secret, settings, audited, t, u)
    {
      var before := Tables();
      if !labelled {
        return Err(InvalidMetadata);
      }
      var refusal := CheckCaller(Tables(), account);
      if refusal.Some? {
        return Err(refusal.value);
      }
      if IssuanceExceeded(Tables(), account, settings, t) {
        return Err(RateLimited);
      }
      if |Owned(Tables(), account)| >= settings.maxIdentities {
        return Err(IdentityQuota);
      }
      if i in identities {
        return Err(Constraint);
      }
      identities := identities[i := Identity(account, 1, 0, 0, None)];
      if !KeyInsertable(keys, k, i, 1) {
        Rollback(before);
        return Err(Constraint);
      }
      keys := keys[k := Key(i, secret, 1, u, None)];
      if !audited {
        Rollback(before);
        return Err(NotAdmitted);
      }
      return Ok(1);
    }

    method EnrollStatements(account: AccountId, key: Option<OfflineKey>, i: IdentityId,
                        settings: Settings, audited: bool, t: int, u: int)
      returns (r: Result<int, Error>)
      modifies this
      ensures Outcome(Tables(), r) ==
              Enroll(old(Tables()), account, key, i, settings, audited, t, u)
    {
      var before := Tables();
      if key.None? {
        return Err(InvalidMetadata);
      }
      var refusal := CheckCaller(Tables(), account);
      if refusal.Some? {
        return Err(refusal.value);
      }
      var k := key.value.id;
      if k in keys && keys[k].identity in identities {
        var row := keys[k];
        if identities[row.identity].account != account || row.secret != key.value.secret {
          return Err(KeyInvalid);
        }
        if row.revokedAt.Some? {
          return Err(KeyRevoked);
        }
        return Ok(row.identity);
      }
      if IssuanceExceeded(Tables(), account, settings, t) {
        return Err(RateLimited);
      }
      if |Owned(Tables(), account)| >= settings.maxIdentities {
        return Err(IdentityQuota);
      }
      if i in identities {
        return Err(Constraint);
      }
      identities := identities[i := Identity(account, 1, 0, 0, None)];
      if !KeyInsertable(keys, k, i, 1) {
        Rollback(before);
        return Err(Constraint);
      }
      keys := keys[k := Key(i, key.value.secret, 1, u, None)];
      if !audited {
        Rollback(before);
        return Err(NotAdmitted);
      }
      return Ok(i);
    }

    method RotateStatements(account: AccountId, i: IdentityId, expected: nat, k: KeyId, secret: Secret,
                     settings: Settings, audited: bool, t: int, u: int)
      returns (r: Result<int, Error>)
      modifies this
      ensures Outcome(Tables(), r) ==
              Rotate(old(Tables()), account, i, expected, k, secret, settings, audited, t, u)
    {
      var before := Tables();
      if expected >= I64_MAX {
        return Err(InvalidMetadata);
      }
      var refusal := CheckCaller(Tables(), account);
      if refusal.Some? {
        return Err(refusal.value);
      }
      if IssuanceExceeded(Tables(), account, settings, t) {
        return Err(RateLimited);
      }
      if !Owns(Tables(), account, i) || identities[i].generation != expected {
        return Err(KeyInvalid);
      }
      identities := identities[i := identities[i].(generation := identities[i].generation + 1)];
      RevokeIdentityRows(i, u);
      if !KeyInsertable(keys, k, i, expected + 1) {
        Rollback(before);
        return Err(Constraint);
      }
      keys := keys[k := Key(i, secret, expected + 1, u, None)];
      if !audited {
        Rollback(before);
        return Err(NotAdmitted);
      }
      return Ok(expected + 1);
    }

    method RevokeStatements(account: AccountId, i: IdentityId, audited: bool, t: int)
      returns (r: Result<int, Error>)
      modifies this
      ensures Outcome(Tables(), r) ==
              Revoke(old(Tables()), account, i, audited, t)
    {
      var before := Tables();
      if !ActiveAccount(Tables(), account) {
        return Err(Unauthenticated);
      }
      if !Owns(Tables(), account, i) {
        return Err(KeyInvalid);
      }
      RevokeIdentityRows(i, t);
      if !audited {
        Rollback(before);
        return Err(NotAdmitted);
      }
      return Ok(0);
    }

    method ActivateStatements(account: AccountId, key: Option<OfflineKey>, entity: EntityId, expected: nat,
                           s: SessionId, token: Secret, settings: Settings, audited: bool, t: int, u: int)
      returns (r: Result<int, Error>)
      modifies this
      ensures Outcome(Tables(), r) ==
              Activate(old(Tables()), account, key, entity, expected, s, token, settings, audited, t, u)
    {
      var before := Tables();
      if key.None? || expected >= I64_MAX {
        return Err(KeyInvalid);
      }
      if !enabled {
        return Err(Disabled);
      }
      if !ActiveAccount(Tables(), account) {
        return Err(Unauthenticated);
      }
      if ActivationExceeded(Tables(), account, settings, t) {
        return Err(RateLimited);
      }
      if !KeyUsable(Tables(), account, key.value) {
        return Err(KeyInvalid);
      }
      var refusal := CheckStatus(StatusOf(Tables(), account));
      if refusal.Some? {
        return Err(refusal.value);
      }
      var i := keys[key.value.id].identity;
      var row := identities[i];
      if row.binding != expected {
        return Err(BindingStale);
      }
      identities :=
          identities[i := row.(binding := row.binding + 1, appearance := row.appearance + 1, active := Some(s))];
      sessions := RevokeSessions(sessions, SessionsOf(Tables(), {i}), u);
      appearances := appearances - {i};
      if s in sessions {
        Rollback(before);
        return Err(Constraint);
      }
      sessions := sessions[s := Session(i, key.value.id, expected + 1, token, entity,
                                        u + settings.sessionTtlSeconds * 1000, u, None)];
      if !audited {
        Rollback(before);
        return Err(NotAdmitted);
      }
      return Ok(expected + 1);
    }

    method PublishStatements(account: AccountId, s: SessionId, token: Secret, binding: nat, expected: nat,
                             payload: int, ttl: nat, admitted: bool, t: int, u: int)
      returns (r: Result<int, Error>)
      modifies this
      ensures Outcome(Tables(), r) ==
              Publish(old(Tables()), account, s, token, binding, expected, payload, ttl, admitted, t, u)
    {
      if expected >= I64_MAX || binding >= I64_MAX {
        return Err(InvalidMetadata);
      }
      var refusal := Authorize(Tables(), account, s, token, t);
      if refusal.Some? {
        return Err(refusal.value);
      }
      var session := sessions[s];
      var i := session.identity;
      if session.binding != binding {
        return Err(BindingStale);
      }
      if !admitted {
        return Err(NotAdmitted);
      }
      var row := identities[i];
      if row.active != Some(s) || row.binding != session.binding || row.appearance != expected {
        return Err(RevisionConflict);
      }
      identities := identities[i := row.(appearance := row.appearance + 1)];
      appearances := appearances[i := Appearance(s, session.binding, expected + 1, payload)];
      sessions := sessions[s := session.(expiresAt := u + ttl * 1000)];
      return Ok(expected + 1);
    }

    method WithdrawStatements(account: AccountId, s: SessionId, token: Secret, t: int, u: int)
      returns (r: Result<int, Error>)
      modifies this
      ensures Outcome(Tables(), r) ==
              Withdraw(old(Tables()), account, s, token, t, u)
    {
      var refusal := Authorize(Tables(), account, s, token, t);
      if refusal.Some? {
        return Err(refusal.value);
      }
      var session := sessions[s];
      var i := session.identity;
      var row := identities[i];
      if row.active != Some(s) || row.binding != session.binding {
        return Err(BindingStale);
      }
      identities := identities[i := row.(active := None, binding := row.binding + 1, appearance := row.appearance + 1)];
      sessions := sessions[s := session.(revokedAt := Some(u))];
      appearances := appearances - {i};
      return Ok(0);
    }

    method DecideStatements(account: AccountId, approve: bool, audited: bool, t: int)
      returns (r: Result<int, Error>)
      modifies this
      ensures Outcome(Tables(), r) ==
              Decide(old(Tables()), account, approve, audited, t)
    {
      var before := Tables();
      if !ActiveAccount(Tables(), account) {
        return Err(Unauthenticated);
      }
      auths := auths[account := if approve then Approved else Revoked];
      if !approve {
        assert Owned(Tables(), account) == Owned(before, account);
        RetireOwners(Owned(Tables(), account), t);
      }
      if !audited {
        Rollback(before);
        return Err(NotAdmitted);
      }
      return Ok(0);
    }

    method ConfigureStatements(next: Mode, t: int)
      modifies this
      ensures Tables() == Configure(old(Tables()), next, t)
    {
      mode := next;
      if next == ModeDisabled {
        InvalidateAllSessions(t);
      }
      enabled := next != ModeDisabled;
    }

    method StartupStatements(next: Mode, t: int)
      modifies this
      ensures Tables() == Startup(old(Tables()), next, t)
    {
      InvalidateAllSessions(t);
      mode := next;
      if next == ModeDisabled {
        InvalidateAllSessions(t);
      }
      enabled := next != ModeDisabled;
    }

    // ----- the transactions -----

    method RequestAuthorization(account: AccountId, audited: bool)
      returns (r: Result<Status, Error>)
      requires Inv(Tables())
      modifies this
      ensures Inv(Tables()) && (r.Err? ==> Tables() == old(Tables()))
      ensures RequestedFor(old(Tables()), Tables(), r, account, audited)
    {
      hide *;
      RequestKeepsInv(Tables(), account, audited);
      RequestMeans(Tables(), account, audited);
      r := RequestStatements(account, audited);
    }

    method IssueKey(account: AccountId, labelled: bool, i: IdentityId, k: KeyId, secret: Secret,
                    settings: Settings, audited: bool, t: int, u: int)
      returns (r: Result<int, Error>)
      requires Inv(Tables())
      modifies this
      ensures Inv(Tables()) && (r.Err? ==> Tables() == old(Tables()))
      ensures IssuedFor(old(Tables()), Tables(), r, account, labelled, i, k, secret, settings, audited, t, u)
    {
      hide *;
      IssueKeepsInv(Tables(), account, labelled, i, k, secret, settings, audited, t, u);
      IssueMeans(Tables(), account, labelled, i, k, secret, settings, audited, t, u);
      r := IssueStatements(account, labelled, i, k, secret, settings, audited, t, u);
    }

    method EnrollDevice(account: AccountId, key: Option<OfflineKey>, i: IdentityId,
                        settings: Settings, audited: bool, t: int, u: int)
      returns (r: Result<int, Error>)
      requires Inv(Tables())
      modifies this
      ensures Inv(Tables()) && (r.Err? ==> Tables() == old(Tables()))
      ensures EnrolledFor(old(Tables()), Tables(), r, account, key, i, settings, audited, t, u)
    {
      hide *;
      EnrollKeepsInv(Tables(), account, key, i, settings, audited, t, u);
      EnrollMeans(Tables(), account, key, i, settings, audited, t, u);
      r := EnrollStatements(account, key, i, settings, audited, t, u);
    }

    method RotateKey(account: AccountId, i: IdentityId, expected: nat, k: KeyId, secret: Secret,
                     settings: Settings, audited: bool, t: int, u: int)
      returns (r: Result<int, Error>)
      requires Inv(Tables())
      modifies this
      ensures Inv(Tables()) && (r.Err? ==> Tables() == old(Tables()))
      ensures RotatedFor(old(Tables()), Tables(), r, account, i, expected, k, secret, settings, audited, t, u)
    {
      hide *;
      RotateKeepsInv(Tables(), account, i, expected, k, secret, settings, audited, t, u);
      RotateMeans(Tables(), account, i, expected, k, secret, settings, audited, t, u);
      r := RotateStatements(account, i, expected, k, secret, settings, audited, t, u);
    }

    method RevokeKey(account: AccountId, i: IdentityId, audited: bool, t: int)
      returns (r: Result<int, Error>)
      requires Inv(Tables())
      modifies this
      ensures Inv(Tables()) && (r.Err? ==> Tables() == old(Tables()))
      ensures RevokedFor(old(Tables()), Tables(), r, account, i, audited, t)
    {
      hide *;
      RevokeKeepsInv(Tables(), account, i, audited, t);
      RevokeMeans(Tables(), account, i, audited, t);
      r := RevokeStatements(account, i, audited, t);
    }

    method ActivateSession(account: AccountId, key: Option<OfflineKey>, entity: EntityId, expected: nat,
                           s: SessionId, token: Secret, settings: Settings, audited: bool, t: int, u: int)
      returns (r: Result<int, Error>)
      requires Inv(Tables())
      modifies this
      ensures Inv(Tables()) && (r.Err? ==> Tables() == old(Tables()))
      ensures ActivatedFor(old(Tables()), Tables(), r, account, key, entity, expected, s, token, settings, audited, t,
                           u)
    {
      hide *;
      ActivateKeepsInv(Tables(), account, key, entity, expected, s, token, settings, audited, t, u);
      ActivateMeans(Tables(), account, key, entity, expected, s, token, settings, audited, t, u);
      r := ActivateStatements(account, key, entity, expected, s, token, settings, audited, t, u);
    }

    method PublishAppearance(account: AccountId, s: SessionId, token: Secret, binding: nat, expected: nat,
                             payload: int, ttl: nat, admitted: bool, t: int, u: int)
      returns (r: Result<int, Error>)
      requires Inv(Tables())
      modifies this
      ensures Inv(Tables()) && (r.Err? ==> Tables() == old(Tables()))
      ensures PublishedFor(old(Tables()), Tables(), r, account, s, token, binding, expected, payload, ttl, admitted, t,
                           u)
    {
      hide *;
      PublishKeepsInv(Tables(), account, s, token, binding, expected, payload, ttl, admitted, t, u);
      PublishMeans(Tables(), account, s, token, binding, expected, payload, ttl, admitted, t, u);
      r := PublishStatements(account, s, token, binding, expected, payload, ttl, admitted, t, u);
    }

    method WithdrawSession(account: AccountId, s: SessionId, token: Secret, t: int, u: int)
      returns (r: Result<int, Error>)
      requires Inv(Tables())
      modifies this
      ensures Inv(Tables()) && (r.Err? ==> Tables() == old(Tables()))
      ensures WithdrawnFor(old(Tables()), Tables(), r, account, s, token, t, u)
      ensures r.Ok? ==> forall a, secret, time :: Authorize(Tables(), a, s, secret, time).Some?
    {
      hide *;
      WithdrawKeepsInv(Tables(), account, s, token, t, u);
      WithdrawMeans(Tables(), account, s, token, t, u);
      r := WithdrawStatements(account, s, token, t, u);
      if r.Ok? {
        WithdrawnRefused(old(Tables()), Tables(), r, account, s, token, t, u);
      }
    }

    method DecideAuthorization(account: AccountId, approve: bool, audited: bool, t: int)
      returns (r: Result<int, Error>)
      requires Inv(Tables())
      modifies this
      ensures Inv(Tables()) && (r.Err? ==> Tables() == old(Tables()))
      ensures DecidedFor(old(Tables()), Tables(), r, account, approve, audited, t)
    {
      hide *;
      DecideKeepsInv(Tables(), account, approve, audited, t);
      DecideMeans(Tables(), account, approve, audited, t);
      r := DecideStatements(account, approve, audited, t);
    }

    method ApplySettings(next: Mode, t: int)
      requires Inv(Tables())
      modifies this
      ensures Inv(Tables()) && ConfiguredFor(old(Tables()), Tables(), next, t)
    {
      hide *;
      ConfigureKeepsInv(Tables(), next, t);
      ConfigureMeans(Tables(), next, t);
      ConfigureStatements(next, t);
    }

    method Open(next: Mode, t: int)
      requires Inv(Tables())
      modifies this
      ensures Inv(Tables()) && StartedFor(old(Tables()), Tables(), next, t)
    {
      hide *;
      StartupKeepsInv(Tables(), next, t);
      StartupMeans(Tables(), next, t);
      StartupStatements(next, t);
    }

    // ----- requests of two transactions -----

    /** What other connections do between two transactions of one request. */
    method Interleave(others: seq<Event>)
      requires Inv(Tables())
      modifies this
      ensures Inv(Tables()) && Tables() == Run(old(Tables()), others)
    {
      hide Inv, Run;
      RunKeepsInv(Tables(), others);
      SetTables(Run(Tables(), others));
    }

    /**
     Issuing a key: the authorization request first, then, if it was granted, the
     issuance, which checks again what other transactions may have changed meanwhile.
     */
    method IssueOfflineKey(account: AccountId, labelled: bool, i: IdentityId, k: KeyId, secret: Secret,
                           settings: Settings,
                           requestAudited: bool, others: seq<Event>, audited: bool, t: int, u: int)
      returns (r: Result<int, Error>)
      requires Inv(Tables())
      modifies this
      ensures Inv(Tables())
      ensures var first := Request(old(Tables()), account, requestAudited);
              Refusal(first.reply).Some? ==> r == Err(Refusal(first.reply).value) && Tables() == first.db
      ensures var between := Run(Request(old(Tables()), account, requestAudited).db, others);
              Refusal(Request(old(Tables()), account, requestAudited).reply).None? ==>
                IssuedFor(between, Tables(), r, account, labelled, i, k, secret, settings, audited, t, u)
      ensures r.Err? && Refusal(Request(old(Tables()), account, requestAudited).reply).None? ==>
                Tables() == Run(Request(old(Tables()), account, requestAudited).db, others)
    {
      hide *;
      RequestKeepsInv(Tables(), account, requestAudited);
      var grant := RequestStatements(account, requestAudited);
      var refusal := Refusal(grant);
      if refusal.Some? {
        return Err(refusal.value);
      }
      Interleave(others);
      r := IssueKey(account, labelled, i, k, secret, settings, audited, t, u);
    }

    /**
     Enrolling a device: the request, and the enrollment once the account is approved;
     otherwise the status is the answer.
     */
    method EnrollOfflineDevice(account: AccountId, key: Option<OfflineKey>, i: IdentityId, settings: Settings,
                               requestAudited: bool, others: seq<Event>, audited: bool, t: int, u: int)
      returns (r: Result<Enrollment, Error>)
      requires Inv(Tables())
      modifies this
      ensures Inv(Tables())
      ensures var first := Request(old(Tables()), account, requestAudited);
              EnrollmentFor(first, Run(first.db, others), Tables(), r, account, key, i, settings, audited, t, u)
    {
      hide Inv, Request, Run, EnrolledFor, RequestedFor;
      RequestKeepsInv(Tables(), account, requestAudited);
      var status := RequestStatements(account, requestAudited);
      if status.Err? {
        return Err(status.error);
      }
      if status.value != Approved {
        return Ok(Waiting(status.value));
      }
      Interleave(others);
      var identity := EnrollDevice(account, key, i, settings, audited, t, u);
      r := if identity.Ok? then Ok(Enrolled(identity.value)) else Err(identity.error);
    }

    /**
     Completes the entries left undecided by the verified players. The clock is
     read once for every entry: `times[j]` is the reading for entry `j`.
     */
    method QueryOfflinePlayers(account: AccountId, entries: seq<Entry>, shown: map<int, int>, times: seq<int>)
      returns (r: Result<seq<Entry>, Error>)
      requires Inv(Tables()) && |times| == |entries|
      ensures !ActiveAccount(Tables(), account) ==> r == Err(Unauthenticated)
      ensures ActiveAccount(Tables(), account) ==>
                && r.Ok? && |r.value| == |entries|
                && forall j | 0 <= j < |entries| ::
                     r.value[j] == Discovered(Tables(), entries[j], shown, times[j])
    {
      if !ActiveAccount(Tables(), account) {
        return Err(Unauthenticated);
      }
      if !enabled {
        forall j | 0 <= j < |entries| ensures entries[j] == Discovered(Tables(), entries[j], shown, times[j]) {
          NobodyWhileDisabled(Tables(), entries[j], shown, times[j]);
        }
        return Ok(entries);
      }
      var result := entries;
      var j := 0;
      while j < |result|
        invariant 0 <= j <= |result| == |entries|
        invariant forall m | j <= m < |result| :: result[m] == entries[m]
        invariant forall m | 0 <= m < j :: result[m] == Discovered(Tables(), entries[m], shown, times[m])
      {
        var entry := result[j];
        if !Decided(entry) {
          JoinIsPublishers(Tables(), entry.entity, times[j]);
          FromRowsIsDiscovered(Tables(), entry, shown, times[j]);
          result := result[j := FromRows(Tables(), entry, JoinedRows(Tables(), entry.entity, times[j]), shown)];
        }
        j := j + 1;
      }
      return Ok(result);
    }
  }
}
