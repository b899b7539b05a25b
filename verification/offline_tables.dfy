/**
 The five offline-identity tables, the runtime switch, and the SQL statements
 that the transactions of the feature are made of.

 Identifiers and secrets are opaque values that the service only compares for
 equality, so numbers stand for them. A secret stands for its digest: the hash
 is taken to be injective.
 */
module OfflineTables {
  import opened Outcomes

  type AccountId = nat
  type IdentityId = nat
  type KeyId = nat
  type SessionId = nat
  type EntityId = nat
  type Secret = nat

  datatype Mode = ModeDisabled | ModeManual | ModeAutomatic

  /** `NotRequested` is what the absence of an authorization row is read as. */
  datatype Status = NotRequested | Pending | Approved | Revoked

  datatype Settings = Settings(
    mode: Mode,
    maxIdentities: nat,
    sessionTtlSeconds: nat,
    activationsPerMinute: nat,
    issuancesPerHour: nat)

  datatype Identity = Identity(
    account: AccountId,
    generation: int,
    binding: int,
    appearance: int,
    active: Option<SessionId>)

  datatype Key = Key(
    identity: IdentityId,
    secret: Secret,
    generation: int,
    createdAt: int,
    revokedAt: Option<int>)

  datatype Session = Session(
    identity: IdentityId,
    key: KeyId,
    binding: int,
    token: Secret,
    entity: EntityId,
    expiresAt: int,
    createdAt: int,
    revokedAt: Option<int>)

  datatype Appearance = Appearance(session: SessionId, binding: int, revision: int, payload: int)

  /**
   `now` is the largest clock reading taken so far. `accounts` maps an account
   to its disabled flag. `auths` holds one row per account that ever asked for
   authorization or had it decided.
   */
  datatype Db = Db(
    now: int,
    enabled: bool,
    mode: Mode,
    accounts: map<AccountId, bool>,
    auths: map<AccountId, Status>,
    identities: map<IdentityId, Identity>,
    keys: map<KeyId, Key>,
    sessions: map<SessionId, Session>,
    appearances: map<IdentityId, Appearance>)

  // ----- lookups -----

  predicate ActiveAccount(db: Db, account: AccountId) {
    account in db.accounts && !db.accounts[account]
  }

  function StatusOf(db: Db, account: AccountId): Status {
    if account in db.auths then db.auths[account] else NotRequested
  }

  predicate Owns(db: Db, account: AccountId, i: IdentityId) {
    i in db.identities && db.identities[i].account == account
  }

  function Owned(db: Db, account: AccountId): set<IdentityId> {
    set i | i in db.identities && Owns(db, account, i)
  }

  function SessionsOf(db: Db, owners: set<IdentityId>): set<SessionId> {
    set s | s in db.sessions && db.sessions[s].identity in owners
  }

  /** `SELECT COUNT(*)` of an account's keys created after `since`. */
  function KeysSince(db: Db, account: AccountId, since: int): set<KeyId> {
    set k | k in db.keys && Owns(db, account, db.keys[k].identity) && db.keys[k].createdAt > since
  }

  /** `SELECT COUNT(*)` of an account's sessions created after `since`. */
  function SessionsSince(db: Db, account: AccountId, since: int): set<SessionId> {
    set s | s in db.sessions && Owns(db, account, db.sessions[s].identity) && db.sessions[s].createdAt > since
  }

  // ----- set-at-a-time updates -----

  /** `UPDATE keys SET revoked_at=t WHERE identity_id=i AND revoked_at IS NULL` */
  function RevokeKeys(keys: map<KeyId, Key>, i: IdentityId, t: int): map<KeyId, Key> {
    map k | k in keys ::
      if keys[k].identity == i && keys[k].revokedAt.None? then keys[k].(revokedAt := Some(t)) else keys[k]
  }

  /** `UPDATE sessions SET revoked_at=t WHERE <chosen> AND revoked_at IS NULL` */
  function RevokeSessions(sessions: map<SessionId, Session>, chosen: set<SessionId>, t: int): map<SessionId, Session> {
    map s | s in sessions ::
      if s in chosen && sessions[s].revokedAt.None? then sessions[s].(revokedAt := Some(t)) else sessions[s]
  }

  /**
   `UPDATE identities SET active_session_id=NULL, binding_revision+1,
   appearance_revision+1 WHERE <chosen> AND active_session_id IS NOT NULL`
   */
  function Unbind(identities: map<IdentityId, Identity>, chosen: set<IdentityId>): map<IdentityId, Identity> {
    map i | i in identities ::
      if i in chosen && identities[i].active.Some?
      then identities[i].(active := None, binding := identities[i].binding + 1,
                          appearance := identities[i].appearance + 1)
      else identities[i]
  }
}
