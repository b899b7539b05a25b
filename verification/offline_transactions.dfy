/**
 What each database transaction of the offline-identity feature does, as a
 function from the tables before to the tables after and the reply. A refused
 transaction is rolled back: it returns the tables it was given.

 `t` is the reading of the clock at the first call in the transaction and `u`
 the reading at the last; a transaction never moves the clock itself. Failures
 of code outside this model (the audit log, asset and display validation, the
 publication rate limit) are the boolean parameters `audited` and `admitted`.
 */
module OfflineTransactions {
  import opened Outcomes
  import opened OfflineTables

  const I64_MAX := 0x7FFF_FFFF_FFFF_FFFF
  const HOUR := 3_600_000
  const MINUTE := 60_000

  datatype Error =
    | Disabled
    | Unauthenticated
    | AuthorizationPending
    | AuthorizationDenied
    | InvalidMetadata
    | KeyInvalid
    | KeyRevoked
    | RateLimited
    | IdentityQuota
    | BindingStale
    | SessionExpired
    | RevisionConflict
    | Constraint
    | NotAdmitted

  datatype Outcome = Outcome(db: Db, reply: Result<int, Error>)

  /** The text `spm-offline-v1.<keyId>.<secret>` once its format has been checked. */
  datatype OfflineKey = OfflineKey(id: KeyId, secret: Secret)

  // ----- shared checks -----

  function CheckStatus(s: Status): Option<Error> {
    match s
    case Approved => None
    case Revoked => Some(AuthorizationDenied)
    case _ => Some(AuthorizationPending)
  }

  /** `require_enabled`, `active_account`, `require_approved`, in this order. */
  function CheckCaller(db: Db, account: AccountId): Option<Error> {
    if !db.enabled then Some(Disabled)
    else if !ActiveAccount(db, account) then Some(Unauthenticated)
    else CheckStatus(StatusOf(db, account))
  }

  predicate IssuanceExceeded(db: Db, account: AccountId, settings: Settings, t: int) {
    |KeysSince(db, account, t - HOUR)| >= settings.issuancesPerHour
  }

  predicate ActivationExceeded(db: Db, account: AccountId, settings: Settings, t: int) {
    |SessionsSince(db, account, t - MINUTE)| >= settings.activationsPerMinute
  }

  /** PRIMARY KEY(key_id) and UNIQUE(identity_id, generation). */
  predicate KeyInsertable(keys: map<KeyId, Key>, id: KeyId, i: IdentityId, generation: int) {
    id !in keys && forall k | k in keys :: !(keys[k].identity == i && keys[k].generation == generation)
  }

  // ----- shared effects -----

  /** Sessions of `owners` revoked, their bindings cleared, their appearances deleted. */
  function Retire(db: Db, owners: set<IdentityId>, t: int): Db {
    db.(sessions := RevokeSessions(db.sessions, SessionsOf(db, owners), t),
        identities := Unbind(db.identities, owners),
        appearances := db.appearances - owners)
  }

  function RevokeIdentity(db: Db, i: IdentityId, t: int): Db {
    Retire(db.(keys := RevokeKeys(db.keys, i, t)), {i}, t)
  }

  function InvalidateSessions(db: Db, t: int): Db {
    db.(sessions := RevokeSessions(db.sessions, db.sessions.Keys, t),
        identities := Unbind(db.identities, db.identities.Keys),
        appearances := map[])
  }

  function AddIdentity(db: Db, account: AccountId, i: IdentityId, k: KeyId, secret: Secret, u: int): Db {
    db.(identities := db.identities[i := Identity(account, 1, 0, 0, None)],
        keys := db.keys[k := Key(i, secret, 1, u, None)])
  }

  // ----- transactions -----

  function NextStatus(previous: Status, mode: Mode): Status {
    if (previous == NotRequested || previous == Pending) && mode == ModeAutomatic then Approved
    else if previous == NotRequested then Pending
    else previous
  }

  /** The reply of an authorization request is the status it found or granted. */
  datatype Requested = Requested(db: Db, reply: Result<Status, Error>)

  function Request(db: Db, account: AccountId, audited: bool): Requested {
    if !db.enabled then Requested(db, Err(Disabled))
    else if !ActiveAccount(db, account) then Requested(db, Err(Unauthenticated))
    else
      var next := NextStatus(StatusOf(db, account), db.mode);
      if next == StatusOf(db, account) then Requested(db, Ok(next))
      else if !audited then Requested(db, Err(NotAdmitted))
      else Requested(db.(auths := db.auths[account := next]), Ok(next))
  }

  /** Why a request does not go on to its second transaction. */
  function Refusal(reply: Result<Status, Error>): Option<Error> {
    match reply
    case Err(error) => Some(error)
    case Ok(status) => CheckStatus(status)
  }

  /** The second transaction of issuance; the first one is `Request`. */
  function Issue(db: Db, account: AccountId, labelled: bool, i: IdentityId, k: KeyId, secret: Secret,
                 settings: Settings, audited: bool, t: int, u: int): Outcome {
    if !labelled then Outcome(db, Err(InvalidMetadata))
    else if CheckCaller(db, account).Some? then Outcome(db, Err(CheckCaller(db, account).value))
    else if IssuanceExceeded(db, account, settings, t) then Outcome(db, Err(RateLimited))
    else if |Owned(db, account)| >= settings.maxIdentities then Outcome(db, Err(IdentityQuota))
    else if i in db.identities || !KeyInsertable(db.keys, k, i, 1) then Outcome(db, Err(Constraint))
    else if !audited then Outcome(db, Err(NotAdmitted))
    else Outcome(AddIdentity(db, account, i, k, secret, u), Ok(1))
  }

  /** The second transaction of enrollment; `key` is None when the text is malformed. */
  function Enroll(db: Db, account: AccountId, key: Option<OfflineKey>, i: IdentityId,
                  settings: Settings, audited: bool, t: int, u: int): Outcome {
    if key.None? then Outcome(db, Err(InvalidMetadata))
    else if CheckCaller(db, account).Some? then Outcome(db, Err(CheckCaller(db, account).value))
    else
      var k := key.value.id;
      if k in db.keys && db.keys[k].identity in db.identities then
        if db.identities[db.keys[k].identity].account != account || db.keys[k].secret != key.value.secret
        then Outcome(db, Err(KeyInvalid))
        else if db.keys[k].revokedAt.Some? then Outcome(db, Err(KeyRevoked))
        else Outcome(db, Ok(db.keys[k].identity))
      else if IssuanceExceeded(db, account, settings, t) then Outcome(db, Err(RateLimited))
      else if |Owned(db, account)| >= settings.maxIdentities then Outcome(db, Err(IdentityQuota))
      else if i in db.identities || !KeyInsertable(db.keys, k, i, 1) then Outcome(db, Err(Constraint))
      else if !audited then Outcome(db, Err(NotAdmitted))
      else Outcome(AddIdentity(db, account, i, k, key.value.secret, u), Ok(i))
  }

  function Rotate(db: Db, account: AccountId, i: IdentityId, expected: nat, k: KeyId, secret: Secret,
                  settings: Settings, audited: bool, t: int, u: int): Outcome {
    if expected >= I64_MAX then Outcome(db, Err(InvalidMetadata))
    else if CheckCaller(db, account).Some? then Outcome(db, Err(CheckCaller(db, account).value))
    else if IssuanceExceeded(db, account, settings, t) then Outcome(db, Err(RateLimited))
    else if !Owns(db, account, i) || db.identities[i].generation != expected then Outcome(db, Err(KeyInvalid))
    else
      var bumped := db.(identities := db.identities[i := db.identities[i].(generation := expected + 1)]);
      var revoked := RevokeIdentity(bumped, i, u);
      if !KeyInsertable(revoked.keys, k, i, expected + 1) then Outcome(db, Err(Constraint))
      else if !audited then Outcome(db, Err(NotAdmitted))
      else Outcome(revoked.(keys := revoked.keys[k := Key(i, secret, expected + 1, u, None)]), Ok(expected + 1))
  }

  function Revoke(db: Db, account: AccountId, i: IdentityId, audited: bool, t: int): Outcome {
    if !ActiveAccount(db, account) then Outcome(db, Err(Unauthenticated))
    else if !Owns(db, account, i) then Outcome(db, Err(KeyInvalid))
    else if !audited then Outcome(db, Err(NotAdmitted))
    else Outcome(RevokeIdentity(db, i, t), Ok(0))
  }

  /** The key an activation presents, joined with its identity: current generation, not revoked. */
  predicate KeyUsable(db: Db, account: AccountId, key: OfflineKey) {
    key.id in db.keys &&
    var row := db.keys[key.id];
    Owns(db, account, row.identity) && row.generation == db.identities[row.identity].generation &&
    row.revokedAt.None? && row.secret == key.secret
  }

  function Activate(db: Db, account: AccountId, key: Option<OfflineKey>, entity: EntityId, expected: nat,
                    s: SessionId, token: Secret, settings: Settings, audited: bool, t: int, u: int): Outcome {
    if key.None? || expected >= I64_MAX then Outcome(db, Err(KeyInvalid))
    else if !db.enabled then Outcome(db, Err(Disabled))
    else if !ActiveAccount(db, account) then Outcome(db, Err(Unauthenticated))
    else if ActivationExceeded(db, account, settings, t) then Outcome(db, Err(RateLimited))
    else if !KeyUsable(db, account, key.value) then Outcome(db, Err(KeyInvalid))
    else if CheckStatus(StatusOf(db, account)).Some? then Outcome(db, Err(CheckStatus(StatusOf(db, account)).value))
    else
      var i := db.keys[key.value.id].identity;
      var row := db.identities[i];
      if row.binding != expected then Outcome(db, Err(BindingStale))
      else if s in db.sessions then Outcome(db, Err(Constraint))
      else if !audited then Outcome(db, Err(NotAdmitted))
      else
        var session := Session(i, key.value.id, expected + 1, token, entity,
                               u + settings.sessionTtlSeconds * 1000, u, None);
        Outcome(
          db.(identities := db.identities[i := row.(binding := row.binding + 1, appearance := row.appearance + 1,
                                                    active := Some(s))],
              sessions := RevokeSessions(db.sessions, SessionsOf(db, {i}), u)[s := session],
              appearances := db.appearances - {i}),
          Ok(expected + 1))
  }

  /** The join of session, identity and key that `authorize` reads. */
  predicate SessionJoined(db: Db, account: AccountId, s: SessionId) {
    s in db.sessions && Owns(db, account, db.sessions[s].identity) && db.sessions[s].key in db.keys
  }

  /** None when the session is accepted at time `t`. */
  function Authorize(db: Db, account: AccountId, s: SessionId, token: Secret, t: int): Option<Error> {
    if CheckCaller(db, account).Some? then CheckCaller(db, account)
    else if !SessionJoined(db, account, s) then Some(SessionExpired)
    else
      var session := db.sessions[s];
      var identity := db.identities[session.identity];
      var key := db.keys[session.key];
      if session.token != token then Some(SessionExpired)
      else if identity.active != Some(s) then Some(BindingStale)
      else if session.expiresAt <= t || session.revokedAt.Some? || key.revokedAt.Some? ||
              key.generation != identity.generation then Some(SessionExpired)
      else None
  }

  function Publish(db: Db, account: AccountId, s: SessionId, token: Secret, binding: nat, expected: nat,
                   payload: int, ttl: nat, admitted: bool, t: int, u: int): Outcome {
    if expected >= I64_MAX || binding >= I64_MAX then Outcome(db, Err(InvalidMetadata))
    else if Authorize(db, account, s, token, t).Some? then Outcome(db, Err(Authorize(db, account, s, token, t).value))
    else
      var session := db.sessions[s];
      var row := db.identities[session.identity];
      if session.binding != binding then Outcome(db, Err(BindingStale))
      else if !admitted then Outcome(db, Err(NotAdmitted))
      else if row.active != Some(s) || row.binding != session.binding || row.appearance != expected
      then Outcome(db, Err(RevisionConflict))
      else Outcome(
        db.(identities := db.identities[session.identity := row.(appearance := row.appearance + 1)],
            appearances := db.appearances[session.identity := Appearance(s, session.binding, expected + 1, payload)],
            sessions := db.sessions[s := session.(expiresAt := u + ttl * 1000)]),
        Ok(expected + 1))
  }

  function Withdraw(db: Db, account: AccountId, s: SessionId, token: Secret, t: int, u: int): Outcome {
    if Authorize(db, account, s, token, t).Some? then Outcome(db, Err(Authorize(db, account, s, token, t).value))
    else
      var session := db.sessions[s];
      var i := session.identity;
      var row := db.identities[i];
      if row.active != Some(s) || row.binding != session.binding then Outcome(db, Err(BindingStale))
      else Outcome(
        db.(identities :=
            db.identities[i := row.(active := None, binding := row.binding + 1, appearance := row.appearance + 1)],
            sessions := db.sessions[s := session.(revokedAt := Some(u))],
            appearances := db.appearances - {i}),
        Ok(0))
  }

  /** An administrator's decision on an account. */
  function Decide(db: Db, account: AccountId, approve: bool, audited: bool, t: int): Outcome {
    if !ActiveAccount(db, account) then Outcome(db, Err(Unauthenticated))
    else if !audited then Outcome(db, Err(NotAdmitted))
    else
      var decided := db.(auths := db.auths[account := if approve then Approved else Revoked]);
      Outcome(if approve then decided else Retire(decided, Owned(db, account), t), Ok(0))
  }

  /** Applying settings, both from the file watcher and from the settings page. */
  function Configure(db: Db, mode: Mode, t: int): Db {
    var moded := db.(mode := mode);
    var quiet := if mode == ModeDisabled then InvalidateSessions(moded, t) else moded;
    quiet.(enabled := mode != ModeDisabled)
  }

  /** Opening the store: no session survives a restart. */
  function Startup(db: Db, mode: Mode, t: int): Db {
    Configure(InvalidateSessions(db, t), mode, t)
  }

  // ----- the machine -----

  /**
   One step of the machine. `SetAccount` stands for the account administration
   outside this model: accounts are created, disabled and enabled, never deleted.
   */
  datatype Op =
    | OpRequest(account: AccountId, audited: bool)
    | OpIssue(account: AccountId, labelled: bool, identity: IdentityId, keyId: KeyId, secret: Secret,
              settings: Settings, audited: bool)
    | OpEnroll(account: AccountId, key: Option<OfflineKey>, identity: IdentityId, settings: Settings, audited: bool)
    | OpRotate(account: AccountId, identity: IdentityId, generation: nat, keyId: KeyId, secret: Secret,
               settings: Settings, audited: bool)
    | OpRevoke(account: AccountId, identity: IdentityId, audited: bool)
    | OpActivate(account: AccountId, key: Option<OfflineKey>, entity: EntityId, expected: nat, session: SessionId,
                 token: Secret, settings: Settings, audited: bool)
    | OpPublish(account: AccountId, session: SessionId, token: Secret, binding: nat, expected: nat,
                payload: int, ttl: nat, admitted: bool)
    | OpWithdraw(account: AccountId, session: SessionId, token: Secret)
    | OpDecide(account: AccountId, approve: bool, audited: bool)
    | OpConfigure(mode: Mode)
    | OpStartup(mode: Mode)
    | OpSetAccount(account: AccountId, disabled: bool)

  /** How far the clock moves before the first and before the last reading of a step. */
  datatype Delay = Delay(first: nat, last: nat)

  function Transact(db: Db, op: Op, t: int, u: int): Outcome {
    match op
    case OpRequest(account, audited) =>
      var requested := Request(db, account, audited);
      Outcome(requested.db, if requested.reply.Ok? then Ok(0) else Err(requested.reply.error))
    case OpIssue(account, labelled, identity, keyId, secret, settings, audited) =>
      Issue(db, account, labelled, identity, keyId, secret, settings, audited, t, u)
    case OpEnroll(account, key, identity, settings, audited) =>
      Enroll(db, account, key, identity, settings, audited, t, u)
    case OpRotate(account, identity, generation, keyId, secret, settings, audited) =>
      Rotate(db, account, identity, generation, keyId, secret, settings, audited, t, u)
    case OpRevoke(account, identity, audited) => Revoke(db, account, identity, audited, t)
    case OpActivate(account, key, entity, expected, session, token, settings, audited) =>
      Activate(db, account, key, entity, expected, session, token, settings, audited, t, u)
    case OpPublish(account, session, token, binding, expected, payload, ttl, admitted) =>
      Publish(db, account, session, token, binding, expected, payload, ttl, admitted, t, u)
    case OpWithdraw(account, session, token) => Withdraw(db, account, session, token, t, u)
    case OpDecide(account, approve, audited) => Decide(db, account, approve, audited, t)
    case OpConfigure(mode) => Outcome(Configure(db, mode, t), Ok(0))
    case OpStartup(mode) => Outcome(Startup(db, mode, t), Ok(0))
    case OpSetAccount(account, disabled) => Outcome(db.(accounts := db.accounts[account := disabled]), Ok(0))
  }

  function Step(db: Db, op: Op, delay: Delay): Outcome {
    var t := db.now + delay.first;
    var u := t + delay.last;
    var outcome := Transact(db, op, t, u);
    Outcome(outcome.db.(now := u), outcome.reply)
  }

  /** The tables as a fresh installation creates them. */
  function Fresh(now: int): Db {
    Db(now, false, ModeAutomatic, map[], map[], map[], map[], map[], map[])
  }

  datatype Event = Event(op: Op, delay: Delay)

  function Run(db: Db, events: seq<Event>): Db
    decreases |events|
  {
    if events == [] then db else Run(Step(db, events[0].op, events[0].delay).db, events[1..])
  }
}
