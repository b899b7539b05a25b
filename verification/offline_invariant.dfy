/**
 The safety invariant of the offline-identity feature over all five tables, and
 the proof that every transaction keeps it.
 */
module OfflineInvariant {
  import opened Outcomes
  import opened OfflineTables
  import opened OfflineTransactions

  // ----- the invariant -----

  /** Rows refer to rows that exist; a session's key belongs to the session's identity. */
  ghost predicate Referenced(db: Db) {
    && (forall i | i in db.identities :: db.identities[i].account in db.accounts)
    && (forall k | k in db.keys :: db.keys[k].identity in db.identities)
    && (forall s | s in db.sessions ::
          db.sessions[s].identity in db.identities && db.sessions[s].key in db.keys &&
          db.keys[db.sessions[s].key].identity == db.sessions[s].identity)
  }

  /** No key is newer than its identity's generation, and an unrevoked key is of exactly that generation. */
  ghost predicate KeysNewest(db: Db)
    requires Referenced(db)
  {
    forall k | k in db.keys ::
      db.keys[k].generation <= db.identities[db.keys[k].identity].generation &&
      (db.keys[k].revokedAt.None? ==> db.keys[k].generation == db.identities[db.keys[k].identity].generation)
  }

  /** No generation of an identity has two keys. */
  ghost predicate KeysDistinct(db: Db) {
    forall k, l | k in db.keys && l in db.keys && k != l && db.keys[k].identity == db.keys[l].identity ::
      db.keys[k].generation != db.keys[l].generation
  }

  /**
   An unrevoked session is its identity's active session, and no session is
   bound beyond its identity's binding revision.
   */
  ghost predicate SessionsBound(db: Db)
    requires Referenced(db)
  {
    forall s | s in db.sessions ::
      db.sessions[s].binding <= db.identities[db.sessions[s].identity].binding &&
      (db.sessions[s].revokedAt.None? ==> db.identities[db.sessions[s].identity].active == Some(s))
  }

  /** No two sessions of an identity share a binding revision. */
  ghost predicate SessionsDistinct(db: Db) {
    forall s, r | s in db.sessions && r in db.sessions && s != r
        && db.sessions[s].identity == db.sessions[r].identity ::
      db.sessions[s].binding != db.sessions[r].binding
  }

  /** What an identity's active session has to be. */
  ghost predicate ActiveSound(db: Db)
    requires Referenced(db)
  {
    forall i | i in db.identities && db.identities[i].active.Some? ::
      var s := db.identities[i].active.value;
      && db.enabled
      && StatusOf(db, db.identities[i].account) == Approved
      && s in db.sessions
      && db.sessions[s].identity == i
      && db.sessions[s].revokedAt.None?
      && db.sessions[s].binding == db.identities[i].binding
      && db.keys[db.sessions[s].key].revokedAt.None?
      && db.keys[db.sessions[s].key].generation == db.identities[i].generation
  }

  /** A stored appearance names the active session and both current revisions. */
  ghost predicate AppearancesCurrent(db: Db) {
    forall i | i in db.appearances ::
      && i in db.identities
      && db.identities[i].active == Some(db.appearances[i].session)
      && db.appearances[i].binding == db.identities[i].binding
      && db.appearances[i].revision == db.identities[i].appearance
  }

  ghost predicate Inv(db: Db) {
    && Referenced(db)
    && KeysNewest(db)
    && KeysDistinct(db)
    && SessionsBound(db)
    && SessionsDistinct(db)
    && ActiveSound(db)
    && AppearancesCurrent(db)
  }

  // ----- primitive changes keep it -----

  lemma RetireRows(db: Db, owners: set<IdentityId>, t: int)
    requires Inv(db)
    ensures Referenced(Retire(db, owners, t))
    ensures KeysNewest(Retire(db, owners, t)) && KeysDistinct(Retire(db, owners, t))
  {
  }

  lemma RetireSessionsDistinct(db: Db, owners: set<IdentityId>, t: int)
    requires SessionsDistinct(db)
    ensures SessionsDistinct(Retire(db, owners, t))
  {
  }

  lemma RetireSessionsBound(db: Db, owners: set<IdentityId>, t: int)
    requires Inv(db) && Referenced(Retire(db, owners, t))
    ensures SessionsBound(Retire(db, owners, t))
  {
  }

  lemma RetireActiveSound(db: Db, owners: set<IdentityId>, t: int)
    requires Inv(db) && Referenced(Retire(db, owners, t))
    ensures ActiveSound(Retire(db, owners, t))
    ensures AppearancesCurrent(Retire(db, owners, t))
  {
  }

  /** Retiring any set of identities keeps the invariant and leaves none of them active. */
  lemma RetireKeepsInv(db: Db, owners: set<IdentityId>, t: int)
    requires Inv(db)
    ensures Inv(Retire(db, owners, t))
    ensures forall i | i in owners && i in db.identities :: Retire(db, owners, t).identities[i].active == None
  {
    RetireRows(db, owners, t);
    RetireSessionsDistinct(db, owners, t);
    RetireSessionsBound(db, owners, t);
    RetireActiveSound(db, owners, t);
  }

  /** A global invalidation is the retirement of every identity. */
  lemma InvalidateIsRetire(db: Db, t: int)
    requires Inv(db)
    ensures InvalidateSessions(db, t) == Retire(db, db.identities.Keys, t)
  {
    assert SessionsOf(db, db.identities.Keys) == db.sessions.Keys;
    assert db.appearances - db.identities.Keys == map[];
  }

  /** Revoking the keys of an identity that is not active. */
  lemma RevokeKeysKeepsInv(db: Db, i: IdentityId, t: int)
    requires Inv(db)
    requires i in db.identities ==> db.identities[i].active.None?
    ensures Inv(db.(keys := RevokeKeys(db.keys, i, t)))
  {
  }

  lemma RevokeIdentityIsRetire(db: Db, i: IdentityId, t: int)
    ensures RevokeIdentity(db, i, t) ==
            var quiet := Retire(db, {i}, t); quiet.(keys := RevokeKeys(quiet.keys, i, t))
  {
  }

  lemma RevokeIdentityKeepsInv(db: Db, i: IdentityId, t: int)
    requires Inv(db)
    ensures Inv(RevokeIdentity(db, i, t))
  {
    RetireKeepsInv(db, {i}, t);
    RevokeIdentityIsRetire(db, i, t);
    RevokeKeysKeepsInv(Retire(db, {i}, t), i, t);
  }

  /** The tables after identity `i` got the inactive row `row` and its newest key `k`. */
  ghost function WithNewestKey(db: Db, i: IdentityId, row: Identity, k: KeyId, secret: Secret, u: int): Db {
    db.(identities := db.identities[i := row], keys := db.keys[k := Key(i, secret, row.generation, u, None)])
  }

  /** `i` is either new, or inactive with all its keys revoked and older than `row`. */
  ghost predicate ReadyForKey(db: Db, i: IdentityId, row: Identity) {
    && row.account in db.accounts
    && row.active.None?
    && (i in db.identities ==>
          db.identities[i].active.None? && db.identities[i].generation < row.generation &&
          db.identities[i].binding == row.binding)
    && (forall l | l in db.keys && db.keys[l].identity == i :: db.keys[l].revokedAt.Some?)
  }

  lemma NewestKeyKeys(db: Db, i: IdentityId, row: Identity, k: KeyId, secret: Secret, u: int)
    requires Inv(db) && k !in db.keys && ReadyForKey(db, i, row)
    ensures Referenced(WithNewestKey(db, i, row, k, secret, u))
    ensures KeysNewest(WithNewestKey(db, i, row, k, secret, u))
  {
  }

  lemma NewestKeyDistinct(db: Db, i: IdentityId, row: Identity, k: KeyId, secret: Secret, u: int)
    requires Inv(db) && k !in db.keys && ReadyForKey(db, i, row)
    ensures KeysDistinct(WithNewestKey(db, i, row, k, secret, u))
  {
  }

  lemma NewestKeySessions(db: Db, i: IdentityId, row: Identity, k: KeyId, secret: Secret, u: int)
    requires Inv(db) && k !in db.keys && ReadyForKey(db, i, row)
    requires Referenced(WithNewestKey(db, i, row, k, secret, u))
    ensures SessionsBound(WithNewestKey(db, i, row, k, secret, u))
    ensures AppearancesCurrent(WithNewestKey(db, i, row, k, secret, u))
  {
  }

  lemma NewestKeyActive(db: Db, i: IdentityId, row: Identity, k: KeyId, secret: Secret, u: int)
    requires Inv(db) && k !in db.keys && ReadyForKey(db, i, row)
    requires Referenced(WithNewestKey(db, i, row, k, secret, u))
    ensures ActiveSound(WithNewestKey(db, i, row, k, secret, u))
  {
  }

  lemma NewestKeyKeepsInv(db: Db, i: IdentityId, row: Identity, k: KeyId, secret: Secret, u: int)
    requires Inv(db) && k !in db.keys && ReadyForKey(db, i, row)
    ensures Inv(WithNewestKey(db, i, row, k, secret, u))
  {
    NewestKeyKeys(db, i, row, k, secret, u);
    NewestKeyDistinct(db, i, row, k, secret, u);
    NewestKeySessions(db, i, row, k, secret, u);
    NewestKeyActive(db, i, row, k, secret, u);
  }

  // ----- transactions keep it -----

  lemma AddIdentityKeepsInv(db: Db, account: AccountId, i: IdentityId, k: KeyId, secret: Secret, u: int)
    requires Inv(db) && ActiveAccount(db, account) && i !in db.identities && k !in db.keys
    ensures Inv(AddIdentity(db, account, i, k, secret, u))
  {
    NewestKeyKeepsInv(db, i, Identity(account, 1, 0, 0, None), k, secret, u);
  }

  /** An accepted rotation revokes the identity's keys and session and then inserts the newest key. */
  lemma RotateIsRevokeThenKey(db: Db, account: AccountId, i: IdentityId, expected: nat, k: KeyId, secret: Secret,
                              settings: Settings, audited: bool, t: int, u: int)
    requires Rotate(db, account, i, expected, k, secret, settings, audited, t, u).reply.Ok?
    ensures i in db.identities && db.identities[i].generation == expected && k !in db.keys
    ensures var quiet := RevokeIdentity(db, i, u);
            Rotate(db, account, i, expected, k, secret, settings, audited, t, u).db ==
            WithNewestKey(quiet, i, quiet.identities[i].(generation := expected + 1), k, secret, u)
  {
    var quiet := RevokeIdentity(db, i, u);
    assert Rotate(db, account, i, expected, k, secret, settings, audited, t, u).db.identities ==
           quiet.identities[i := quiet.identities[i].(generation := expected + 1)];
  }

  lemma RevokedReadyForKey(db: Db, i: IdentityId, u: int)
    requires Inv(db) && i in db.identities
    ensures var quiet := RevokeIdentity(db, i, u);
            ReadyForKey(quiet, i, quiet.identities[i].(generation := db.identities[i].generation + 1))
    ensures RevokeIdentity(db, i, u).keys.Keys == db.keys.Keys
  {
  }

  lemma RotateKeepsInv(db: Db, account: AccountId, i: IdentityId, expected: nat, k: KeyId, secret: Secret,
                       settings: Settings, audited: bool, t: int, u: int)
    requires Inv(db)
    ensures Inv(Rotate(db, account, i, expected, k, secret, settings, audited, t, u).db)
  {
    var outcome := Rotate(db, account, i, expected, k, secret, settings, audited, t, u);
    if outcome.reply.Ok? {
      hide Inv, RevokeIdentity, WithNewestKey, ReadyForKey, Rotate;
      RotateIsRevokeThenKey(db, account, i, expected, k, secret, settings, audited, t, u);
      RevokeIdentityKeepsInv(db, i, u);
      RevokedReadyForKey(db, i, u);
      var quiet := RevokeIdentity(db, i, u);
      NewestKeyKeepsInv(quiet, i, quiet.identities[i].(generation := expected + 1), k, secret, u);
    }
  }

  /** What activation does to an identity, its sessions and its appearance once every check passed. */
  ghost function Bound(db: Db, i: IdentityId, s: SessionId, session: Session, u: int): Db
    requires i in db.identities
  {
    var row := db.identities[i];
    db.(identities :=
        db.identities[i := row.(binding := row.binding + 1, appearance := row.appearance + 1, active := Some(s))],
        sessions := RevokeSessions(db.sessions, SessionsOf(db, {i}), u)[s := session],
        appearances := db.appearances - {i})
  }

  ghost predicate Bindable(db: Db, i: IdentityId, s: SessionId, session: Session) {
    && i in db.identities
    && s !in db.sessions
    && db.enabled
    && StatusOf(db, db.identities[i].account) == Approved
    && session.identity == i
    && session.binding == db.identities[i].binding + 1
    && session.revokedAt.None?
    && session.key in db.keys
    && db.keys[session.key].identity == i
    && db.keys[session.key].revokedAt.None?
    && db.keys[session.key].generation == db.identities[i].generation
  }

  lemma BoundRows(db: Db, i: IdentityId, s: SessionId, session: Session, u: int)
    requires Inv(db) && Bindable(db, i, s, session)
    ensures Referenced(Bound(db, i, s, session, u))
  {
  }

  lemma BoundKeys(db: Db, i: IdentityId, s: SessionId, session: Session, u: int)
    requires Inv(db) && Bindable(db, i, s, session)
    requires Referenced(Bound(db, i, s, session, u))
    ensures KeysNewest(Bound(db, i, s, session, u)) && KeysDistinct(Bound(db, i, s, session, u))
  {
  }

  lemma BoundSessions(db: Db, i: IdentityId, s: SessionId, session: Session, u: int)
    requires Inv(db) && Bindable(db, i, s, session)
    requires Referenced(Bound(db, i, s, session, u))
    ensures SessionsBound(Bound(db, i, s, session, u))
  {
  }

  lemma BoundDistinct(db: Db, i: IdentityId, s: SessionId, session: Session, u: int)
    requires Inv(db) && Bindable(db, i, s, session)
    ensures SessionsDistinct(Bound(db, i, s, session, u))
  {
  }

  lemma BoundActive(db: Db, i: IdentityId, s: SessionId, session: Session, u: int)
    requires Inv(db) && Bindable(db, i, s, session)
    requires Referenced(Bound(db, i, s, session, u))
    ensures ActiveSound(Bound(db, i, s, session, u))
    ensures AppearancesCurrent(Bound(db, i, s, session, u))
  {
  }

  lemma ActivateKeepsInv(db: Db, account: AccountId, key: Option<OfflineKey>, entity: EntityId, expected: nat,
                         s: SessionId, token: Secret, settings: Settings, audited: bool, t: int, u: int)
    requires Inv(db)
    ensures Inv(Activate(db, account, key, entity, expected, s, token, settings, audited, t, u).db)
  {
    var outcome := Activate(db, account, key, entity, expected, s, token, settings, audited, t, u);
    if outcome.reply.Ok? {
      var i := db.keys[key.value.id].identity;
      var session := outcome.db.sessions[s];
      assert outcome.db == Bound(db, i, s, session, u);
      BoundRows(db, i, s, session, u);
      BoundKeys(db, i, s, session, u);
      BoundSessions(db, i, s, session, u);
      BoundDistinct(db, i, s, session, u);
      BoundActive(db, i, s, session, u);
    }
  }

  /** What an accepted publish does. */
  ghost function Published(db: Db, s: SessionId, payload: int, expiresAt: int): Db
    requires s in db.sessions && db.sessions[s].identity in db.identities
  {
    var i := db.sessions[s].identity;
    var row := db.identities[i];
    db.(identities := db.identities[i := row.(appearance := row.appearance + 1)],
        appearances := db.appearances[i := Appearance(s, row.binding, row.appearance + 1, payload)],
        sessions := db.sessions[s := db.sessions[s].(expiresAt := expiresAt)])
  }

  lemma PublishedRows(db: Db, s: SessionId, payload: int, expiresAt: int)
    requires Inv(db) && s in db.sessions
    ensures var after := Published(db, s, payload, expiresAt);
            Referenced(after) && KeysNewest(after) && KeysDistinct(after)
  {
  }

  lemma PublishedSessions(db: Db, s: SessionId, payload: int, expiresAt: int)
    requires Inv(db) && s in db.sessions && Referenced(Published(db, s, payload, expiresAt))
    ensures var after := Published(db, s, payload, expiresAt);
            SessionsBound(after) && SessionsDistinct(after)
  {
  }

  lemma PublishedActive(db: Db, s: SessionId, payload: int, expiresAt: int)
    requires Inv(db) && s in db.sessions && Referenced(Published(db, s, payload, expiresAt))
    ensures ActiveSound(Published(db, s, payload, expiresAt))
  {
  }

  lemma PublishedKeepsInv(db: Db, s: SessionId, payload: int, expiresAt: int)
    requires Inv(db) && s in db.sessions
    requires db.identities[db.sessions[s].identity].active == Some(s)
    ensures Inv(Published(db, s, payload, expiresAt))
  {
    PublishedRows(db, s, payload, expiresAt);
    PublishedSessions(db, s, payload, expiresAt);
    PublishedActive(db, s, payload, expiresAt);
  }

  lemma PublishKeepsInv(db: Db, account: AccountId, s: SessionId, token: Secret, binding: nat, expected: nat,
                        payload: int, ttl: nat, admitted: bool, t: int, u: int)
    requires Inv(db)
    ensures Inv(Publish(db, account, s, token, binding, expected, payload, ttl, admitted, t, u).db)
  {
    var outcome := Publish(db, account, s, token, binding, expected, payload, ttl, admitted, t, u);
    if outcome.reply.Ok? {
      hide Inv;
      assert outcome.db == Published(db, s, payload, u + ttl * 1000);
      PublishedKeepsInv(db, s, payload, u + ttl * 1000);
    }
  }

  /** Only the active session of an identity is unrevoked. */
  lemma OnlyActiveUnrevoked(db: Db, i: IdentityId, u: int)
    requires Inv(db) && i in db.identities && db.identities[i].active.Some?
    ensures var s := db.identities[i].active.value;
            s in db.sessions &&
            RevokeSessions(db.sessions, SessionsOf(db, {i}), u) ==
            db.sessions[s := db.sessions[s].(revokedAt := Some(u))]
  {
  }

  /** Withdrawing the active session retires its identity: the other sessions are revoked already. */
  lemma WithdrawIsRetire(db: Db, account: AccountId, s: SessionId, token: Secret, t: int, u: int)
    requires Inv(db) && Authorize(db, account, s, token, t).None?
    ensures Withdraw(db, account, s, token, t, u) ==
            Outcome(Retire(db, {db.sessions[s].identity}, u), Ok(0))
  {
    var i := db.sessions[s].identity;
    OnlyActiveUnrevoked(db, i, u);
    assert db.sessions[s].binding == db.identities[i].binding;
    hide Inv;
    assert Withdraw(db, account, s, token, t, u).db.identities == Unbind(db.identities, {i});
  }

  /** A change of status is safe for an account none of whose identities is active. */
  lemma StatusKeepsInv(db: Db, account: AccountId, status: Status)
    requires Inv(db)
    requires status == Approved || forall i | i in Owned(db, account) :: db.identities[i].active.None?
    ensures Inv(db.(auths := db.auths[account := status]))
  {
    var after := db.(auths := db.auths[account := status]);
    assert ActiveSound(after) by {
      forall i | i in after.identities && after.identities[i].active.Some?
        ensures StatusOf(after, after.identities[i].account) == Approved
      {
        assert i in Owned(db, after.identities[i].account);
      }
    }
  }

  /** Revoking an account retires its identities in the same transaction. */
  lemma DecideKeepsInv(db: Db, account: AccountId, approve: bool, audited: bool, t: int)
    requires Inv(db)
    ensures Inv(Decide(db, account, approve, audited, t).db)
  {
    hide Inv;
    var quiet := if approve then db else Retire(db, Owned(db, account), t);
    if !approve {
      RetireKeepsInv(db, Owned(db, account), t);
      assert Owned(quiet, account) == Owned(db, account);
    }
    var status := if approve then Approved else Revoked;
    StatusKeepsInv(quiet, account, status);
    assert Retire(db, Owned(db, account), t).(auths := db.auths[account := status]) ==
           Retire(db.(auths := db.auths[account := status]), Owned(db, account), t);
  }

  /** The runtime switch only matters to active identities. */
  lemma SwitchKeepsInv(db: Db, enabled: bool, mode: Mode)
    requires Inv(db)
    requires enabled || forall i | i in db.identities :: db.identities[i].active.None?
    ensures Inv(db.(enabled := enabled, mode := mode))
  {
  }

  lemma ConfigureKeepsInv(db: Db, mode: Mode, t: int)
    requires Inv(db)
    ensures Inv(Configure(db, mode, t))
  {
    var quiet := if mode == ModeDisabled then InvalidateSessions(db, t) else db;
    InvalidateIsRetire(db, t);
    RetireKeepsInv(db, db.identities.Keys, t);
    hide Inv;
    SwitchKeepsInv(quiet, mode != ModeDisabled, mode);
    assert quiet.(enabled := mode != ModeDisabled, mode := mode) == Configure(db, mode, t);
  }

  lemma StartupKeepsInv(db: Db, mode: Mode, t: int)
    requires Inv(db)
    ensures Inv(Startup(db, mode, t))
  {
    hide Inv;
    InvalidateIsRetire(db, t);
    RetireKeepsInv(db, db.identities.Keys, t);
    ConfigureKeepsInv(InvalidateSessions(db, t), mode, t);
  }

  /** No identity of an account that is not approved has an active session. */
  lemma UnapprovedInactive(db: Db, account: AccountId)
    requires Inv(db)
    ensures StatusOf(db, account) != Approved ==> forall i | i in Owned(db, account) :: db.identities[i].active.None?
  {
  }

  lemma RequestKeepsInv(db: Db, account: AccountId, audited: bool)
    requires Inv(db)
    ensures Inv(Request(db, account, audited).db)
  {
    hide Inv;
    var next := NextStatus(StatusOf(db, account), db.mode);
    if StatusOf(db, account) != next {
      UnapprovedInactive(db, account);
      StatusKeepsInv(db, account, next);
    }
  }

  lemma IssueKeepsInv(db: Db, account: AccountId, labelled: bool, i: IdentityId, k: KeyId, secret: Secret,
                      settings: Settings, audited: bool, t: int, u: int)
    requires Inv(db)
    ensures Inv(Issue(db, account, labelled, i, k, secret, settings, audited, t, u).db)
  {
    if Issue(db, account, labelled, i, k, secret, settings, audited, t, u).reply.Ok? {
      AddIdentityKeepsInv(db, account, i, k, secret, u);
    }
  }

  lemma EnrollKeepsInv(db: Db, account: AccountId, key: Option<OfflineKey>, i: IdentityId,
                       settings: Settings, audited: bool, t: int, u: int)
    requires Inv(db)
    ensures Inv(Enroll(db, account, key, i, settings, audited, t, u).db)
  {
    if Enroll(db, account, key, i, settings, audited, t, u).db != db {
      AddIdentityKeepsInv(db, account, i, key.value.id, key.value.secret, u);
    }
  }

  lemma RevokeKeepsInv(db: Db, account: AccountId, i: IdentityId, audited: bool, t: int)
    requires Inv(db)
    ensures Inv(Revoke(db, account, i, audited, t).db)
  {
    hide Inv;
    RevokeIdentityKeepsInv(db, i, t);
  }

  lemma WithdrawKeepsInv(db: Db, account: AccountId, s: SessionId, token: Secret, t: int, u: int)
    requires Inv(db)
    ensures Inv(Withdraw(db, account, s, token, t, u).db)
  {
    hide Inv, Retire;
    if Authorize(db, account, s, token, t).None? {
      WithdrawIsRetire(db, account, s, token, t, u);
      RetireKeepsInv(db, {db.sessions[s].identity}, u);
    }
  }

  lemma ClockKeepsInv(db: Db, u: int)
    requires Inv(db)
    ensures Inv(db.(now := u))
  {
  }

  lemma SetAccountKeepsInv(db: Db, account: AccountId, disabled: bool)
    requires Inv(db)
    ensures Inv(db.(accounts := db.accounts[account := disabled]))
  {
  }

  lemma TransactKeepsInv(db: Db, op: Op, t: int, u: int)
    requires Inv(db)
    ensures Inv(Transact(db, op, t, u).db)
  {
    hide Inv, Request, Issue, Enroll, Rotate, Revoke, Activate, Publish, Withdraw, Decide, Configure, Startup;
    match op
    case OpRequest(account, audited) =>
      RequestKeepsInv(db, account, audited);
    case OpIssue(account, labelled, identity, keyId, secret, settings, audited) =>
      IssueKeepsInv(db, account, labelled, identity, keyId, secret, settings, audited, t, u);
    case OpEnroll(account, key, identity, settings, audited) =>
      EnrollKeepsInv(db, account, key, identity, settings, audited, t, u);
    case OpRotate(account, identity, generation, keyId, secret, settings, audited) =>
      RotateKeepsInv(db, account, identity, generation, keyId, secret, settings, audited, t, u);
    case OpRevoke(account, identity, audited) =>
      RevokeKeepsInv(db, account, identity, audited, t);
    case OpActivate(account, key, entity, expected, session, token, settings, audited) =>
      ActivateKeepsInv(db, account, key, entity, expected, session, token, settings, audited, t, u);
    case OpPublish(account, session, token, binding, expected, payload, ttl, admitted) =>
      PublishKeepsInv(db, account, session, token, binding, expected, payload, ttl, admitted, t, u);
    case OpWithdraw(account, session, token) =>
      WithdrawKeepsInv(db, account, session, token, t, u);
    case OpDecide(account, approve, audited) =>
      DecideKeepsInv(db, account, approve, audited, t);
    case OpConfigure(mode) =>
      ConfigureKeepsInv(db, mode, t);
    case OpStartup(mode) =>
      StartupKeepsInv(db, mode, t);
    case OpSetAccount(account, disabled) =>
      SetAccountKeepsInv(db, account, disabled);
  }

  lemma StepKeepsInv(db: Db, op: Op, delay: Delay)
    requires Inv(db)
    ensures Inv(Step(db, op, delay).db)
  {
    hide Inv, Transact;
    var t := db.now + delay.first;
    TransactKeepsInv(db, op, t, t + delay.last);
    ClockKeepsInv(Transact(db, op, t, t + delay.last).db, t + delay.last);
  }

  /** Every state reached from a fresh installation by any interleaving of transactions is safe. */
  lemma {:induction false} RunKeepsInv(db: Db, events: seq<Event>)
    requires Inv(db)
    ensures Inv(Run(db, events))
    decreases |events|
  {
    if events != [] {
      StepKeepsInv(db, events[0].op, events[0].delay);
      RunKeepsInv(Step(db, events[0].op, events[0].delay).db, events[1..]);
    }
  }

  lemma ReachableSafe(now: int, events: seq<Event>)
    ensures Inv(Run(Fresh(now), events))
  {
    RunKeepsInv(Fresh(now), events);
  }
}
