/**
 The database quotas along whole runs. Every check counts the rows of a sliding
 window and inserts in the same transaction, so the bounds survive any
 interleaving of issuance, enrollment, rotation and activation.
 */
module OfflineQuota {
  import opened FiniteSets
  import opened Outcomes
  import opened OfflineTables
  import opened OfflineTransactions
  import opened OfflineInvariant

  /** The account's keys created in the hour that ends at `end`. */
  ghost function KeysInHour(db: Db, account: AccountId, end: int): set<KeyId> {
    set k | k in db.keys && Owns(db, account, db.keys[k].identity) && end - HOUR < db.keys[k].createdAt <= end
  }

  /** The account's sessions created in the minute that ends at `end`. */
  ghost function SessionsInMinute(db: Db, account: AccountId, end: int): set<SessionId> {
    set s | s in db.sessions && Owns(db, account, db.sessions[s].identity)
        && end - MINUTE < db.sessions[s].createdAt <= end
  }

  datatype Limits = Limits(identities: nat, keysPerHour: nat, sessionsPerMinute: nat)

  ghost predicate KeysLimited(db: Db, limit: nat) {
    forall account, end :: |KeysInHour(db, account, end)| <= limit
  }

  ghost predicate SessionsLimited(db: Db, limit: nat) {
    forall account, end :: |SessionsInMinute(db, account, end)| <= limit
  }

  ghost predicate IdentitiesLimited(db: Db, limit: nat) {
    forall account :: |Owned(db, account)| <= limit
  }

  ghost predicate Limited(db: Db, limits: Limits) {
    && KeysLimited(db, limits.keysPerHour)
    && SessionsLimited(db, limits.sessionsPerMinute)
    && IdentitiesLimited(db, limits.identities)
  }

  /** The settings an operation runs under allow no more than `limits`. */
  ghost predicate Under(op: Op, limits: Limits) {
    match op
    case OpIssue(_, _, _, _, _, settings, _) => Allows(settings, limits)
    case OpEnroll(_, _, _, settings, _) => Allows(settings, limits)
    case OpRotate(_, _, _, _, _, settings, _) => Allows(settings, limits)
    case OpActivate(_, _, _, _, _, _, settings, _) => Allows(settings, limits)
    case _ => true
  }

  ghost predicate Allows(settings: Settings, limits: Limits) {
    && settings.maxIdentities <= limits.identities
    && settings.issuancesPerHour <= limits.keysPerHour
    && settings.activationsPerMinute <= limits.sessionsPerMinute
  }

  // ----- one window -----

  /** `after` holds the rows of `before`, with the same owners and creation times, and those of `added`. */
  ghost predicate KeysFrom(before: Db, after: Db, added: set<KeyId>) {
    forall k | k in after.keys && k !in added ::
      && k in before.keys
      && after.keys[k].createdAt == before.keys[k].createdAt
      && (forall account ::
          Owns(after, account, after.keys[k].identity) ==> Owns(before, account, before.keys[k].identity))
  }

  ghost predicate SessionsFrom(before: Db, after: Db, added: set<SessionId>) {
    forall s | s in after.sessions && s !in added ::
      && s in before.sessions
      && after.sessions[s].createdAt == before.sessions[s].createdAt
      && (forall account ::
          Owns(after, account, after.sessions[s].identity) ==> Owns(before, account, before.sessions[s].identity))
  }

  lemma KeysStayLimited(before: Db, after: Db, limit: nat)
    requires KeysLimited(before, limit) && KeysFrom(before, after, {})
    ensures KeysLimited(after, limit)
  {
    forall account, end ensures |KeysInHour(after, account, end)| <= limit {
      SubsetSize(KeysInHour(after, account, end), KeysInHour(before, account, end));
    }
  }

  /** The window check at `t` pays for the insertion at `u`. */
  lemma KeyInsertLimited(before: Db, after: Db, k: KeyId, owner: AccountId, t: int, u: int, limit: nat)
    requires KeysLimited(before, limit) && KeysFrom(before, after, {k}) && t <= u
    requires |KeysSince(before, owner, t - HOUR)| < limit
    requires k in after.keys && after.keys[k].createdAt == u && Owns(after, owner, after.keys[k].identity)
    ensures KeysLimited(after, limit)
  {
    forall account, end ensures |KeysInHour(after, account, end)| <= limit {
      var window := KeysInHour(after, account, end);
      if k in window {
        assert window - {k} <= KeysSince(before, owner, t - HOUR);
        SubsetSize(window - {k}, KeysSince(before, owner, t - HOUR));
        assert |window| == |window - {k}| + 1;
      } else {
        SubsetSize(window, KeysInHour(before, account, end));
      }
    }
  }

  lemma SessionsStayLimited(before: Db, after: Db, limit: nat)
    requires SessionsLimited(before, limit) && SessionsFrom(before, after, {})
    ensures SessionsLimited(after, limit)
  {
    forall account, end ensures |SessionsInMinute(after, account, end)| <= limit {
      SubsetSize(SessionsInMinute(after, account, end), SessionsInMinute(before, account, end));
    }
  }

  lemma SessionInsertLimited(before: Db, after: Db, s: SessionId, owner: AccountId, t: int, u: int, limit: nat)
    requires SessionsLimited(before, limit) && SessionsFrom(before, after, {s}) && t <= u
    requires |SessionsSince(before, owner, t - MINUTE)| < limit
    requires s in after.sessions && after.sessions[s].createdAt == u && Owns(after, owner, after.sessions[s].identity)
    ensures SessionsLimited(after, limit)
  {
    forall account, end ensures |SessionsInMinute(after, account, end)| <= limit {
      var window := SessionsInMinute(after, account, end);
      if s in window {
        assert window - {s} <= SessionsSince(before, owner, t - MINUTE);
        SubsetSize(window - {s}, SessionsSince(before, owner, t - MINUTE));
        assert |window| == |window - {s}| + 1;
      } else {
        SubsetSize(window, SessionsInMinute(before, account, end));
      }
    }
  }

  lemma IdentitiesStayLimited(before: Db, after: Db, limit: nat)
    requires IdentitiesLimited(before, limit)
    requires forall account, i | Owns(after, account, i) :: Owns(before, account, i)
    ensures IdentitiesLimited(after, limit)
  {
    forall account ensures |Owned(after, account)| <= limit {
      SubsetSize(Owned(after, account), Owned(before, account));
    }
  }

  // ----- operations -----

  lemma AddIdentityRows(db: Db, account: AccountId, i: IdentityId, k: KeyId, secret: Secret, u: int)
    requires Referenced(db) && i !in db.identities && k !in db.keys
    ensures var after := AddIdentity(db, account, i, k, secret, u);
            && KeysFrom(db, after, {k}) && SessionsFrom(db, after, {})
            && k in after.keys && after.keys[k].createdAt == u && Owns(after, account, after.keys[k].identity)
            && Owned(after, account) == Owned(db, account) + {i}
            && forall a | a != account :: Owned(after, a) == Owned(db, a)
  {
    var after := AddIdentity(db, account, i, k, secret, u);
    assert Owned(after, account) == Owned(db, account) + {i};
    forall a | a != account ensures Owned(after, a) == Owned(db, a) {
    }
  }

  lemma AddIdentityLimited(db: Db, account: AccountId, i: IdentityId, k: KeyId, secret: Secret, t: int, u: int,
                           settings: Settings, limits: Limits)
    requires Referenced(db) && Limited(db, limits) && Allows(settings, limits) && t <= u
    requires i !in db.identities && k !in db.keys
    requires !IssuanceExceeded(db, account, settings, t) && |Owned(db, account)| < settings.maxIdentities
    ensures Limited(AddIdentity(db, account, i, k, secret, u), limits)
  {
    var after := AddIdentity(db, account, i, k, secret, u);
    AddIdentityRows(db, account, i, k, secret, u);
    forall a ensures |Owned(after, a)| <= limits.identities {
      if a == account {
        assert |Owned(after, a)| == |Owned(db, a)| + 1;
      }
    }
    hide AddIdentity, KeysFrom, SessionsFrom, KeysLimited, SessionsLimited;
    KeyInsertLimited(db, after, k, account, t, u, limits.keysPerHour);
    SessionsStayLimited(db, after, limits.sessionsPerMinute);
  }

  /** Operations that insert nothing. */
  lemma QuietLimited(before: Db, after: Db, limits: Limits)
    requires Limited(before, limits)
    requires KeysFrom(before, after, {}) && SessionsFrom(before, after, {})
    requires forall account, i | Owns(after, account, i) :: Owns(before, account, i)
    ensures Limited(after, limits)
  {
    KeysStayLimited(before, after, limits.keysPerHour);
    SessionsStayLimited(before, after, limits.sessionsPerMinute);
    IdentitiesStayLimited(before, after, limits.identities);
  }

  lemma RetireLimited(db: Db, owners: set<IdentityId>, t: int, limits: Limits)
    requires Limited(db, limits)
    ensures Limited(Retire(db, owners, t), limits)
  {
    QuietLimited(db, Retire(db, owners, t), limits);
  }

  lemma InvalidateLimited(db: Db, t: int, limits: Limits)
    requires Limited(db, limits)
    ensures Limited(InvalidateSessions(db, t), limits)
  {
    QuietLimited(db, InvalidateSessions(db, t), limits);
  }

  lemma RevokeIdentityLimited(db: Db, i: IdentityId, t: int, limits: Limits)
    requires Limited(db, limits)
    ensures Limited(RevokeIdentity(db, i, t), limits)
  {
    QuietLimited(db, db.(keys := RevokeKeys(db.keys, i, t)), limits);
    RetireLimited(db.(keys := RevokeKeys(db.keys, i, t)), {i}, t, limits);
  }

  lemma IssueLimited(db: Db, op: Op, t: int, u: int, limits: Limits)
    requires Referenced(db) && Limited(db, limits) && Under(op, limits) && t <= u && op.OpIssue?
    ensures Limited(Issue(db, op.account, op.labelled, op.identity, op.keyId, op.secret, op.settings, op.audited, t,
                          u).db, limits)
  {
    hide Limited, AddIdentity;
    if Issue(db, op.account, op.labelled, op.identity, op.keyId, op.secret, op.settings, op.audited, t, u).reply.Ok? {
      AddIdentityLimited(db, op.account, op.identity, op.keyId, op.secret, t, u, op.settings, limits);
    }
  }

  lemma EnrollLimited(db: Db, op: Op, t: int, u: int, limits: Limits)
    requires Referenced(db) && Limited(db, limits) && Under(op, limits) && t <= u && op.OpEnroll?
    ensures Limited(Enroll(db, op.account, op.key, op.identity, op.settings, op.audited, t, u).db, limits)
  {
    hide Limited, AddIdentity;
    if Enroll(db, op.account, op.key, op.identity, op.settings, op.audited, t, u).db != db {
      AddIdentityLimited(db, op.account, op.identity, op.key.value.id, op.key.value.secret, t, u, op.settings, limits);
    }
  }

  /** A rotation inserts one key for an identity the caller owns, and nothing else. */
  lemma RotateInserts(db: Db, op: Op, t: int, u: int)
    requires Referenced(db) && op.OpRotate?
    requires Rotate(db, op.account, op.identity, op.generation, op.keyId, op.secret, op.settings, op.audited, t,
                    u).reply.Ok?
    ensures var after :=
              Rotate(db, op.account, op.identity, op.generation, op.keyId, op.secret, op.settings, op.audited, t, u).db;
            && !IssuanceExceeded(db, op.account, op.settings, t)
            && KeysFrom(db, after, {op.keyId}) && SessionsFrom(db, after, {})
            && (forall account, i | Owns(after, account, i) :: Owns(db, account, i))
            && op.keyId in after.keys && after.keys[op.keyId].createdAt == u
            && Owns(after, op.account, after.keys[op.keyId].identity)
  {
  }

  lemma RotateLimited(db: Db, op: Op, t: int, u: int, limits: Limits)
    requires Referenced(db) && Limited(db, limits) && Under(op, limits) && t <= u && op.OpRotate?
    ensures Limited(Rotate(db, op.account, op.identity, op.generation, op.keyId, op.secret, op.settings, op.audited, t,
                           u).db, limits)
  {
    var outcome :=
        Rotate(db, op.account, op.identity, op.generation, op.keyId, op.secret, op.settings, op.audited, t, u);
    if outcome.reply.Ok? {
      RotateInserts(db, op, t, u);
      hide Rotate, KeysFrom, SessionsFrom, KeysLimited, SessionsLimited, IdentitiesLimited;
      KeyInsertLimited(db, outcome.db, op.keyId, op.account, t, u, limits.keysPerHour);
      SessionsStayLimited(db, outcome.db, limits.sessionsPerMinute);
      IdentitiesStayLimited(db, outcome.db, limits.identities);
    }
  }

  lemma ActivateInserts(db: Db, op: Op, t: int, u: int)
    requires Referenced(db) && op.OpActivate?
    requires Activate(db, op.account, op.key, op.entity, op.expected, op.session, op.token, op.settings, op.audited, t,
                      u).reply.Ok?
    ensures var after :=
              Activate(db, op.account, op.key, op.entity, op.expected, op.session, op.token, op.settings, op.audited,
                       t, u).db;
            && !ActivationExceeded(db, op.account, op.settings, t)
            && KeysFrom(db, after, {}) && SessionsFrom(db, after, {op.session})
            && (forall account, i | Owns(after, account, i) :: Owns(db, account, i))
            && op.session in after.sessions && after.sessions[op.session].createdAt == u
            && Owns(after, op.account, after.sessions[op.session].identity)
  {
  }

  lemma ActivateLimited(db: Db, op: Op, t: int, u: int, limits: Limits)
    requires Referenced(db) && Limited(db, limits) && Under(op, limits) && t <= u && op.OpActivate?
    ensures Limited(Activate(db, op.account, op.key, op.entity, op.expected, op.session, op.token, op.settings,
                             op.audited, t, u).db, limits)
  {
    var outcome :=
        Activate(db, op.account, op.key, op.entity, op.expected, op.session, op.token, op.settings, op.audited, t, u);
    if outcome.reply.Ok? {
      ActivateInserts(db, op, t, u);
      hide Activate, KeysFrom, SessionsFrom, KeysLimited, SessionsLimited, IdentitiesLimited;
      KeysStayLimited(db, outcome.db, limits.keysPerHour);
      SessionInsertLimited(db, outcome.db, op.session, op.account, t, u, limits.sessionsPerMinute);
      IdentitiesStayLimited(db, outcome.db, limits.identities);
    }
  }

  lemma PublishLimited(db: Db, op: Op, t: int, u: int, limits: Limits)
    requires Referenced(db) && Limited(db, limits) && op.OpPublish?
    ensures Limited(Publish(db, op.account, op.session, op.token, op.binding, op.expected, op.payload, op.ttl,
                            op.admitted, t, u).db, limits)
  {
    QuietLimited(db,
                 Publish(db, op.account, op.session, op.token, op.binding, op.expected, op.payload, op.ttl,
                         op.admitted, t, u).db, limits);
  }

  lemma WithdrawLimited(db: Db, op: Op, t: int, u: int, limits: Limits)
    requires Referenced(db) && Limited(db, limits) && op.OpWithdraw?
    ensures Limited(Withdraw(db, op.account, op.session, op.token, t, u).db, limits)
  {
    QuietLimited(db, Withdraw(db, op.account, op.session, op.token, t, u).db, limits);
  }

  lemma QuietTransactLimited(db: Db, op: Op, t: int, u: int, limits: Limits)
    requires Limited(db, limits)
    requires op.OpRequest? || op.OpRevoke? || op.OpDecide? || op.OpSetAccount?
    ensures Limited(Transact(db, op, t, u).db, limits)
  {
    hide Limited, RevokeIdentity, Retire, Configure, Startup, Issue, Enroll, Rotate, Activate, Publish, Withdraw;
    if op.OpRequest? || op.OpSetAccount? {
      QuietLimited(db, Transact(db, op, t, u).db, limits);
    } else if op.OpRevoke? {
      RevokeIdentityLimited(db, op.identity, t, limits);
    } else if op.OpDecide? {
      var decided := db.(auths := db.auths[op.account := if op.approve then Approved else Revoked]);
      QuietLimited(db, decided, limits);
      RetireLimited(decided, Owned(db, op.account), t, limits);
    }
  }

  lemma SwitchLimited(db: Db, op: Op, t: int, u: int, limits: Limits)
    requires Limited(db, limits)
    requires op.OpConfigure? || op.OpStartup?
    ensures Limited(Transact(db, op, t, u).db, limits)
  {
    hide Limited, InvalidateSessions;
    var first := if op.OpStartup? then InvalidateSessions(db, t) else db;
    InvalidateLimited(db, t, limits);
    var moded := first.(mode := op.mode);
    QuietLimited(first, moded, limits);
    InvalidateLimited(moded, t, limits);
    var quiet := if op.mode == ModeDisabled then InvalidateSessions(moded, t) else moded;
    QuietLimited(quiet, quiet.(enabled := op.mode != ModeDisabled), limits);
  }

  lemma StepLimited(db: Db, op: Op, delay: Delay, limits: Limits)
    requires Inv(db) && Limited(db, limits) && Under(op, limits)
    ensures Limited(Step(db, op, delay).db, limits)
  {
    var t := db.now + delay.first;
    var u := t + delay.last;
    hide Limited, Request, Issue, Enroll, Rotate, Revoke, Activate, Publish, Withdraw, Decide, Configure, Startup,
        Under;
    match op {
      case OpIssue(_, _, _, _, _, _, _) => IssueLimited(db, op, t, u, limits);
      case OpEnroll(_, _, _, _, _) => EnrollLimited(db, op, t, u, limits);
      case OpRotate(_, _, _, _, _, _, _) => RotateLimited(db, op, t, u, limits);
      case OpActivate(_, _, _, _, _, _, _, _) => ActivateLimited(db, op, t, u, limits);
      case OpPublish(_, _, _, _, _, _, _, _) => PublishLimited(db, op, t, u, limits);
      case OpWithdraw(_, _, _) => WithdrawLimited(db, op, t, u, limits);
      case OpConfigure(_) => SwitchLimited(db, op, t, u, limits);
      case OpStartup(_) => SwitchLimited(db, op, t, u, limits);
      case _ => QuietTransactLimited(db, op, t, u, limits);
    }
    var transacted := Transact(db, op, t, u).db;
    QuietLimited(transacted, transacted.(now := u), limits);
  }

  /**
   Along every run no account ever owns more identities than the quota, has more
   keys created in any one hour, or more sessions created in any one minute, than
   the settings of the run allow.
   */
  lemma {:induction false} RunLimited(db: Db, events: seq<Event>, limits: Limits)
    requires Inv(db) && Limited(db, limits)
    requires forall e | e in events :: Under(e.op, limits)
    ensures Limited(Run(db, events), limits)
    decreases |events|
  {
    if events != [] {
      hide Inv, Step, Limited, Under;
      assert events[0] in events;
      StepLimited(db, events[0].op, events[0].delay, limits);
      StepKeepsInv(db, events[0].op, events[0].delay);
      RunLimited(Step(db, events[0].op, events[0].delay).db, events[1..], limits);
    }
  }
}
