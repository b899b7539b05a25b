/**
 What the callers of the offline-identity transactions get, in safe states: when a
 transaction is accepted, what it establishes, and what it leaves alone.
 */
module OfflineEffects {
  import opened Outcomes
  import opened OfflineTables
  import opened OfflineTransactions
  import opened OfflineInvariant
  import opened OfflineHistory
  import opened OfflineDiscovery

  /** Everything but the row, the sessions and the appearance of identity `i` is as before. */
  ghost predicate OnlyIdentity(before: Db, after: Db, i: IdentityId) {
    && after.now == before.now && after.enabled == before.enabled && after.mode == before.mode
    && after.accounts == before.accounts && after.auths == before.auths
    && after.identities.Keys == before.identities.Keys && after.sessions.Keys >= before.sessions.Keys
    && (forall j | j in before.identities && j != i :: after.identities[j] == before.identities[j])
    && (forall s | s in before.sessions && before.sessions[s].identity != i :: after.sessions[s] == before.sessions[s])
    && (forall j | j != i :: j in after.appearances <==> j in before.appearances)
    && (forall j | j != i && j in before.appearances :: after.appearances[j] == before.appearances[j])
  }

  /** No session of `i` is accepted, and none of its rows claims to be live. */
  ghost predicate Silent(db: Db, i: IdentityId) {
    && i in db.identities && db.identities[i].active.None? && i !in db.appearances
    && forall s | s in db.sessions && db.sessions[s].identity == i :: db.sessions[s].revokedAt.Some?
  }

  /** A silent identity's sessions are refused to everybody at any time. */
  lemma SilentRefuses(db: Db, s: SessionId, account: AccountId, token: Secret, t: int)
    requires s in db.sessions && Silent(db, db.sessions[s].identity)
    ensures Authorize(db, account, s, token, t).Some?
  {
  }

  /** The session is accepted at `t`. */
  ghost predicate Live(db: Db, account: AccountId, s: SessionId, token: Secret, t: int) {
    && ActiveAccount(db, account) && s in db.sessions && db.sessions[s].identity in db.identities
    && db.identities[db.sessions[s].identity].account == account && db.sessions[s].token == token
    && db.identities[db.sessions[s].identity].active == Some(s) && t < db.sessions[s].expiresAt
  }

  // ----- what a caller needs -----

  /** The feature is on, and the account exists, is not disabled and has been approved. */
  ghost predicate Trusted(db: Db, account: AccountId) {
    db.enabled && account in db.accounts && !db.accounts[account] && account in db.auths
        && db.auths[account] == Approved
  }

  ghost function IdentitiesOf(db: Db, account: AccountId): set<IdentityId> {
    set i | i in db.identities && db.identities[i].account == account
  }

  /** The account's keys created less than an hour before `t`. */
  ghost function RecentKeys(db: Db, account: AccountId, t: int): set<KeyId> {
    set k | k in db.keys && db.keys[k].identity in IdentitiesOf(db, account) && t - db.keys[k].createdAt < 3_600_000
  }

  /** The account's sessions created less than a minute before `t`. */
  ghost function RecentSessions(db: Db, account: AccountId, t: int): set<SessionId> {
    set s | s in db.sessions && db.sessions[s].identity in IdentitiesOf(db, account)
            && t - db.sessions[s].createdAt < 60_000
  }

  /** An hour has room for another key, and the account for another identity with these ids. */
  ghost predicate MayIssue(db: Db, account: AccountId, i: IdentityId, k: KeyId, settings: Settings, t: int) {
    && |RecentKeys(db, account, t)| < settings.issuancesPerHour
    && |IdentitiesOf(db, account)| < settings.maxIdentities && i !in db.identities && k !in db.keys
  }

  lemma CountedExactly(db: Db, account: AccountId, settings: Settings, t: int)
    ensures IssuanceExceeded(db, account, settings, t) <==> |RecentKeys(db, account, t)| >= settings.issuancesPerHour
    ensures ActivationExceeded(db, account, settings, t)
            <==> |RecentSessions(db, account, t)| >= settings.activationsPerMinute
    ensures Owned(db, account) == IdentitiesOf(db, account)
  {
    assert KeysSince(db, account, t - HOUR) == RecentKeys(db, account, t);
    assert SessionsSince(db, account, t - MINUTE) == RecentSessions(db, account, t);
  }

  lemma TrustedExactly(db: Db, account: AccountId)
    ensures CheckCaller(db, account).None? <==> Trusted(db, account)
  {
  }

  // ----- what ending sessions leaves -----

  /** The identity is bound no more; its revisions move on if it was, and its generation is as given. */
  ghost predicate Unbound(before: Identity, after: Identity, generation: int) {
    && after.account == before.account && after.generation == generation && after.active.None?
    && after.binding == before.binding + (if before.active.Some? then 1 else 0)
    && after.appearance == before.appearance + (if before.active.Some? then 1 else 0)
  }

  /** Revoked at `t` unless it was before, and otherwise as it was. */
  ghost predicate RevokedAt(before: Session, after: Session, t: int) {
    after == before.(revokedAt := after.revokedAt)
    && after.revokedAt == (if before.revokedAt.Some? then before.revokedAt else Some(t))
  }

  /**
   The sessions of `owners` have ended at `t`, their appearances are gone, and all other
   sessions and appearances stay.
   */
  ghost predicate Quieted(before: Db, after: Db, owners: set<IdentityId>, t: int) {
    && after.sessions.Keys == before.sessions.Keys
    && (forall s | s in before.sessions && before.sessions[s].identity in owners ::
          RevokedAt(before.sessions[s], after.sessions[s], t))
    && (forall s | s in before.sessions && before.sessions[s].identity !in owners ::
          after.sessions[s] == before.sessions[s])
    && (forall i :: i in after.appearances <==> i in before.appearances && i !in owners)
    && (forall i | i in after.appearances :: after.appearances[i] == before.appearances[i])
  }

  /** And so have their bindings; all other identities stay. */
  ghost predicate Retired(before: Db, after: Db, owners: set<IdentityId>, t: int) {
    && Quieted(before, after, owners, t) && after.identities.Keys == before.identities.Keys
    && (forall i | i in before.identities && i in owners ::
          Unbound(before.identities[i], after.identities[i], before.identities[i].generation))
    && (forall i | i in before.identities && i !in owners :: after.identities[i] == before.identities[i])
  }

  /** Only these three tables are touched. */
  ghost predicate RowsOnly(before: Db, after: Db) {
    after == before.(identities := after.identities, sessions := after.sessions, appearances := after.appearances)
  }

  lemma RetireMeans(db: Db, owners: set<IdentityId>, t: int)
    ensures Retired(db, Retire(db, owners, t), owners, t) && RowsOnly(db, Retire(db, owners, t))
    ensures forall i | i in owners && i in db.identities :: Silent(Retire(db, owners, t), i)
  {
  }

  lemma InvalidateMeans(db: Db, t: int)
    requires Inv(db)
    ensures var after := InvalidateSessions(db, t);
            Retired(db, after, db.identities.Keys, t) && RowsOnly(db, after) && AllSilent(after)
  {
    InvalidateIsRetire(db, t);
    RetireMeans(db, db.identities.Keys, t);
    InvalidateSilences(db, t);
    hide *;
  }

  lemma InvalidateSilences(db: Db, t: int)
    ensures AllSilent(InvalidateSessions(db, t))
  {
  }

  lemma InvalidateTwice(db: Db, mode: Mode, t: int)
    ensures InvalidateSessions(InvalidateSessions(db, t).(mode := mode), t) == InvalidateSessions(db, t).(mode := mode)
  {
    var once := InvalidateSessions(db, t);
    var twice := InvalidateSessions(once, t);
    assert twice.sessions == once.sessions && twice.identities == once.identities;
  }

  lemma NothingRetired(before: Db, after: Db, t: int)
    requires after.sessions == before.sessions && after.identities == before.identities
    requires after.appearances == before.appearances
    ensures Retired(before, after, {}, t)
  {
  }

  /** Whether sessions have been ended shows in the three tables alone. */
  lemma RetiredAlike(before: Db, after: Db, x: Db, y: Db, owners: set<IdentityId>, t: int)
    requires Quieted(before, after, owners, t)
    requires x.sessions == before.sessions && x.appearances == before.appearances
    requires y.sessions == after.sessions && y.appearances == after.appearances
    ensures Quieted(x, y, owners, t)
    ensures Retired(before, after, owners, t) && x.identities == before.identities && y.identities == after.identities
            ==> Retired(x, y, owners, t)
  {
  }

  /** Ending the sessions of one identity touches no other. */
  lemma RetiredAlone(before: Db, after: Db, i: IdentityId, t: int)
    requires Quieted(before, after, {i}, t) && after == before.(keys := after.keys, identities := after.identities,
                                                                sessions := after.sessions, appearances :=
                                                                    after.appearances)
    requires after.identities.Keys == before.identities.Keys
    requires forall j | j in before.identities && j != i :: after.identities[j] == before.identities[j]
    ensures OnlyIdentity(before, after, i)
  {
  }

  /** The unrevoked keys of `i` are revoked at `t`; every other key stays. */
  ghost predicate KeysRevoked(before: map<KeyId, Key>, after: map<KeyId, Key>, i: IdentityId, t: int) {
    && before.Keys <= after.Keys
    && forall k | k in before ::
         after[k] == if before[k].identity == i && before[k].revokedAt.None? then before[k].(revokedAt := Some(t))
                     else before[k]
  }

  // ----- publishing and withdrawing -----

  /** Accepted exactly through a live session, with its identity's current revisions; that identity alone changes. */
  ghost predicate PublishedFor(
      before: Db, after: Db, r: Result<int, Error>, account: AccountId, s: SessionId, token: Secret, binding: nat,
      expected: nat, payload: int, ttl: nat, admitted: bool, t: int, u: int)
  {
    && (r.Ok? <==>
          && Live(before, account, s, token, t) && admitted && expected < I64_MAX && binding < I64_MAX
          && before.identities[before.sessions[s].identity].binding == binding
          && before.identities[before.sessions[s].identity].appearance == expected)
    && (r.Ok? ==>
          var i := before.sessions[s].identity;
          && r.value == expected + 1 && OnlyIdentity(before, after, i) && after.keys == before.keys
          && after.identities[i] == before.identities[i].(appearance := expected + 1)
          && i in after.appearances && after.appearances[i] == Appearance(s, binding, expected + 1, payload)
          && after.sessions == before.sessions[s := before.sessions[s].(expiresAt := u + ttl * 1000)])
  }

  lemma PublishMeans(db: Db, account: AccountId, s: SessionId, token: Secret, binding: nat, expected: nat,
                     payload: int, ttl: nat, admitted: bool, t: int, u: int)
    requires Inv(db)
    ensures var o := Publish(db, account, s, token, binding, expected, payload, ttl, admitted, t, u);
            && (o.reply.Err? ==> o.db == db)
            && PublishedFor(db, o.db, o.reply, account, s, token, binding, expected, payload, ttl, admitted, t, u)
  {
    AuthorizeExactly(db, account, s, token, t);
  }

  /** What a caller can see beforehand: the publish goes through this session, live at the first reading. */
  ghost predicate PublishesThrough(db: Db, op: Op, delay: Delay, s: SessionId) {
    && op.OpPublish? && op.session == s && op.admitted && op.expected < I64_MAX && op.binding < I64_MAX
    && Live(db, op.account, s, op.token, db.now + delay.first)
    && db.identities[db.sessions[s].identity].binding == op.binding
    && db.identities[db.sessions[s].identity].appearance == op.expected
  }

  /**
   A publish reads the clock twice. A session whose expiry passes while a step runs survives
   that step exactly when the step publishes through it for a positive time, it is live at
   the first reading and the revisions named are the current ones; it is renewed from the second.
   */
  lemma LapsingSurvivesExactly(db: Db, op: Op, delay: Delay, s: SessionId)
    requires Inv(db) && s in db.sessions && !Ended(db, s)
    requires db.sessions[s].expiresAt <= db.now + delay.first + delay.last
    ensures !Ended(Step(db, op, delay).db, s) <==> PublishesThrough(db, op, delay, s) && op.ttl > 0
  {
    hide Inv, Ended, Transact, PublishesThrough;
    LapsingNeedsPublish(db, op, delay, s);
    ThroughExactly(db, op, delay, s);
  }

  lemma ThroughExactly(db: Db, op: Op, delay: Delay, s: SessionId)
    requires Inv(db)
    ensures PublishesThrough(db, op, delay, s) <==> op.OpPublish? && op.session == s && Step(db, op, delay).reply.Ok?
  {
    hide Inv, Live, Publish;
    if op.OpPublish? {
      var t := db.now + delay.first;
      var u := t + delay.last;
      PublishMeans(db, op.account, op.session, op.token, op.binding, op.expected, op.payload, op.ttl, op.admitted, t,
                   u);
      assert Step(db, op, delay).reply == Publish(db, op.account, op.session, op.token, op.binding, op.expected,
                                                  op.payload, op.ttl, op.admitted, t, u).reply;
    }
  }

  /** Accepted exactly through a live session, which alone ends; its identity is silent from then on. */
  ghost predicate WithdrawnFor(before: Db, after: Db, r: Result<int, Error>, account: AccountId, s: SessionId,
                               token: Secret, t: int, u: int) {
    && (r.Ok? <==> Live(before, account, s, token, t))
    && (r.Ok? ==>
          var i := before.sessions[s].identity;
          && OnlyIdentity(before, after, i) && Silent(after, i) && after.keys == before.keys
          && Retired(before, after, {i}, u))
  }

  lemma WithdrawMeans(db: Db, account: AccountId, s: SessionId, token: Secret, t: int, u: int)
    requires Inv(db)
    ensures var o := Withdraw(db, account, s, token, t, u);
            (o.reply.Err? ==> o.db == db) && WithdrawnFor(db, o.db, o.reply, account, s, token, t, u)
  {
    AuthorizeExactly(db, account, s, token, t);
    if Authorize(db, account, s, token, t).None? {
      WithdrawIsRetire(db, account, s, token, t, u);
      var i := db.sessions[s].identity;
      RetireMeans(db, {i}, u);
      RetiredQuieted(db, Retire(db, {i}, u), {i}, u);
      RetiredAlone(db, Retire(db, {i}, u), i, u);
    }
    hide Inv, Retire, Retired, Quieted, Silent, OnlyIdentity;
  }

  /** After a withdrawal its session is refused to everybody at any time. */
  lemma WithdrawnRefused(before: Db, after: Db, r: Result<int, Error>, account: AccountId, s: SessionId, token: Secret,
                         t: int, u: int)
    requires WithdrawnFor(before, after, r, account, s, token, t, u) && r.Ok?
    ensures forall a, secret, time :: Authorize(after, a, s, secret, time).Some?
  {
    forall a, secret, time ensures Authorize(after, a, s, secret, time).Some? {
      SilentRefuses(after, s, a, secret, time);
    }
  }

  // ----- settings -----

  /** Everything is silent. */
  ghost predicate AllSilent(db: Db) {
    && (forall i | i in db.identities :: db.identities[i].active.None?)
    && (forall s | s in db.sessions :: db.sessions[s].revokedAt.Some?)
    && db.appearances == map[]
  }

  /** Nobody is accepted, whatever they present. */
  lemma AllSilentRefuses(db: Db, s: SessionId, account: AccountId, token: Secret, t: int)
    requires AllSilent(db)
    ensures Authorize(db, account, s, token, t).Some?
  {
  }

  /** What no change of settings touches. */
  ghost predicate GrantsKept(before: Db, after: Db) {
    after.now == before.now && after.accounts == before.accounts && after.auths == before.auths
    && after.keys == before.keys
  }

  /** Switching off ends every session for good at `t`; any other mode leaves them alone. */
  ghost predicate ConfiguredFor(before: Db, after: Db, mode: Mode, t: int) {
    && GrantsKept(before, after) && after.mode == mode && (after.enabled <==> mode != ModeDisabled)
    && (mode == ModeDisabled ==> AllSilent(after) && Retired(before, after, before.identities.Keys, t))
    && (mode != ModeDisabled ==> Retired(before, after, {}, t))
  }

  lemma ConfigureMeans(db: Db, mode: Mode, t: int)
    requires Inv(db)
    ensures ConfiguredFor(db, Configure(db, mode, t), mode, t)
  {
    hide Inv, Retired, InvalidateSessions;
    var after := Configure(db, mode, t);
    var moded := db.(mode := mode);
    if mode == ModeDisabled {
      ModeKeepsInv(db, mode);
      InvalidateMeans(moded, t);
      RetiredAlike(moded, InvalidateSessions(moded, t), db, after, db.identities.Keys, t) by {
        assert Retired(moded, InvalidateSessions(moded, t), db.identities.Keys, t);
        RetiredQuieted(moded, InvalidateSessions(moded, t), db.identities.Keys, t);
      }
    } else {
      NothingRetired(db, after, t);
    }
  }

  lemma ModeKeepsInv(db: Db, mode: Mode)
    requires Inv(db)
    ensures Inv(db.(mode := mode))
  {
  }

  lemma RetiredQuieted(before: Db, after: Db, owners: set<IdentityId>, t: int)
    requires Retired(before, after, owners, t)
    ensures Quieted(before, after, owners, t)
  {
  }

  /** A restart ends every session at `t`, keeps keys and grants, and takes the mode of the settings. */
  ghost predicate StartedFor(before: Db, after: Db, mode: Mode, t: int) {
    && GrantsKept(before, after) && after.mode == mode && (after.enabled <==> mode != ModeDisabled)
    && AllSilent(after) && Retired(before, after, before.identities.Keys, t)
  }

  lemma StartupMeans(db: Db, mode: Mode, t: int)
    requires Inv(db)
    ensures StartedFor(db, Startup(db, mode, t), mode, t)
  {
    hide Inv, Retired, InvalidateSessions;
    InvalidateMeans(db, t);
    InvalidateTwice(db, mode, t);
    var once := InvalidateSessions(db, t);
    RetiredQuieted(db, once, db.identities.Keys, t);
    RetiredAlike(db, once, db, Startup(db, mode, t), db.identities.Keys, t);
  }

  // ----- authorization requests -----

  /**
   Accepted exactly while the feature is on for an account that exists and is not disabled,
   when the change, if there is one, is audited; it leaves the account with the status it
   returns, and touches nothing else.
   */
  ghost predicate RequestedFor(before: Db, after: Db, r: Result<Status, Error>, account: AccountId, audited: bool) {
    var settled := StatusOf(before, account) in {Approved, Revoked}
                   || (StatusOf(before, account) == Pending && before.mode != ModeAutomatic);
    && (r.Ok? <==> before.enabled && account in before.accounts && !before.accounts[account] && (audited || settled))
    && (r.Ok? ==>
          && StatusOf(after, account) == r.value != NotRequested && after == before.(auths := after.auths)
          && (r.value == Approved <==> StatusOf(before, account) == Approved
                                       || (StatusOf(before, account) != Revoked && before.mode == ModeAutomatic))
          && (r.value == Revoked <==> StatusOf(before, account) == Revoked)
          && (settled ==> after == before)
          && forall a | a != account :: StatusOf(after, a) == StatusOf(before, a))
  }

  lemma RequestMeans(db: Db, account: AccountId, audited: bool)
    ensures var r := Request(db, account, audited);
            (r.reply.Err? ==> r.db == db) && RequestedFor(db, r.db, r.reply, account, audited)
  {
  }

  // ----- keys -----

  /** The only key of identity `i` that is not revoked. */
  ghost predicate OnlyKey(db: Db, i: IdentityId, k: KeyId, secret: Secret) {
    && k in db.keys && db.keys[k].identity == i && db.keys[k].secret == secret && db.keys[k].revokedAt.None?
    && forall l | l in db.keys && db.keys[l].identity == i && db.keys[l].revokedAt.None? :: l == k
  }

  lemma UnusedIdentity(db: Db, i: IdentityId)
    requires Inv(db) && i !in db.identities
    ensures forall k | k in db.keys :: db.keys[k].identity != i
    ensures forall s | s in db.sessions :: db.sessions[s].identity != i
    ensures i !in db.appearances
  {
  }

  lemma UnrevokedIsOnly(db: Db, k: KeyId)
    requires Inv(db) && k in db.keys && db.keys[k].revokedAt.None?
    ensures OnlyKey(db, db.keys[k].identity, k, db.keys[k].secret)
  {
  }

  /** A new identity of the account, never bound, with one key of the first generation; all else stays. */
  ghost predicate Added(before: Db, after: Db, account: AccountId, i: IdentityId, k: KeyId, secret: Secret, u: int) {
    && i !in before.identities && k !in before.keys && i in after.identities && k in after.keys
    && after.identities[i] == Identity(account, 1, 0, 0, None)
    && after.keys[k] == Key(i, secret, 1, u, None)
    && after == before.(identities := after.identities, keys := after.keys)
    && after.identities - {i} == before.identities && after.keys - {k} == before.keys
    && OnlyKey(after, i, k, secret) && Silent(after, i)
  }

  lemma AddedMeans(db: Db, account: AccountId, i: IdentityId, k: KeyId, secret: Secret, u: int)
    requires Inv(db) && i !in db.identities && k !in db.keys
    ensures Added(db, AddIdentity(db, account, i, k, secret, u), account, i, k, secret, u)
  {
    UnusedIdentity(db, i);
    hide Inv;
  }

  lemma FreshInsertable(db: Db, i: IdentityId, k: KeyId)
    requires Inv(db) && i !in db.identities
    ensures KeyInsertable(db.keys, k, i, 1) <==> k !in db.keys
  {
    UnusedIdentity(db, i);
  }

  /** Accepted exactly for a trusted caller with room, a label and an audit; then a new identity has the key. */
  ghost predicate IssuedFor(
      before: Db, after: Db, r: Result<int, Error>, account: AccountId, labelled: bool, i: IdentityId, k: KeyId,
      secret: Secret, settings: Settings, audited: bool, t: int, u: int)
  {
    && (r.Ok? <==> labelled && audited && Trusted(before, account) && MayIssue(before, account, i, k, settings, t))
    && (r.Ok? ==> r.value == 1 && Added(before, after, account, i, k, secret, u))
  }

  lemma IssueMeans(db: Db, account: AccountId, labelled: bool, i: IdentityId, k: KeyId, secret: Secret,
                   settings: Settings, audited: bool, t: int, u: int)
    requires Inv(db)
    ensures var o := Issue(db, account, labelled, i, k, secret, settings, audited, t, u);
            && (o.reply.Err? ==> o.db == db)
            && IssuedFor(db, o.db, o.reply, account, labelled, i, k, secret, settings, audited, t, u)
  {
    hide Inv, IssuanceExceeded, CheckCaller, Trusted, Added, AddIdentity, KeyInsertable, RecentKeys, IdentitiesOf,
        Owned;
    TrustedExactly(db, account);
    CountedExactly(db, account, settings, t);
    if i !in db.identities {
      FreshInsertable(db, i, k);
      if k !in db.keys {
        AddedMeans(db, account, i, k, secret, u);
      }
    }
  }

  /**
   Accepted exactly for a trusted caller that presents an unrevoked key of its own, which
   changes nothing, or one that no identity has, with room and an audit, which a new
   identity then has.
   */
  ghost predicate EnrolledFor(
      before: Db, after: Db, r: Result<int, Error>, account: AccountId, key: Option<OfflineKey>, i: IdentityId,
      settings: Settings, audited: bool, t: int, u: int)
  {
    && (r.Ok? <==>
          && key.Some? && Trusted(before, account)
          && if key.value.id in before.keys then
               var row := before.keys[key.value.id];
               row.identity in IdentitiesOf(before, account) && row.secret == key.value.secret && row.revokedAt.None?
             else audited && MayIssue(before, account, i, key.value.id, settings, t))
    && (r.Ok? && key.value.id in before.keys ==>
          && after == before && r.value == before.keys[key.value.id].identity
          && OnlyKey(after, before.keys[key.value.id].identity, key.value.id, key.value.secret))
    && (r.Ok? && key.value.id !in before.keys ==>
          r.value == i && Added(before, after, account, i, key.value.id, key.value.secret, u))
  }

  /** The answer to an enrollment: the status of an account not approved yet, or the identity. */
  datatype Enrollment = Waiting(status: Status) | Enrolled(identity: int)

  /**
   A request that is not approved answers with its status; an approved one with what
   enrolling after the other transactions gives.
   */
  ghost predicate EnrollmentFor(
      first: Requested, between: Db, after: Db, r: Result<Enrollment, Error>, account: AccountId,
      key: Option<OfflineKey>, i: IdentityId, settings: Settings, audited: bool, t: int, u: int)
  {
    match first.reply
    case Err(error) => r == Err(error) && after == first.db
    case Ok(status) =>
      if status != Approved then r == Ok(Waiting(status)) && after == first.db
      else
        var enrolled := if r.Err? then Err(r.error) else if r.value.Enrolled? then Ok(r.value.identity) else Ok(-1);
        && (r.Err? ==> after == between) && (r.Ok? ==> r.value.Enrolled?)
        && EnrolledFor(between, after, enrolled, account, key, i, settings, audited, t, u)
  }

  lemma EnrollMeans(db: Db, account: AccountId, key: Option<OfflineKey>, i: IdentityId,
                    settings: Settings, audited: bool, t: int, u: int)
    requires Inv(db)
    ensures var o := Enroll(db, account, key, i, settings, audited, t, u);
            && (o.reply.Err? ==> o.db == db)
            && EnrolledFor(db, o.db, o.reply, account, key, i, settings, audited, t, u)
  {
    hide Inv, IssuanceExceeded, CheckCaller, Trusted, Added, AddIdentity, KeyInsertable, RecentKeys, Owned, OnlyKey;
    TrustedExactly(db, account);
    CountedExactly(db, account, settings, t);
    KeysOwned(db);
    if key.Some? {
      if key.value.id in db.keys {
        if db.keys[key.value.id].revokedAt.None? {
          UnrevokedIsOnly(db, key.value.id);
        }
      } else if i !in db.identities {
        FreshInsertable(db, i, key.value.id);
        AddedMeans(db, account, i, key.value.id, key.value.secret, u);
      }
    }
  }

  lemma KeysOwned(db: Db)
    requires Inv(db)
    ensures forall k | k in db.keys :: db.keys[k].identity in db.identities
  {
  }

  /** Accepted exactly for the owner, with an audit; the identity is left without a usable key and silent. */
  ghost predicate RevokedFor(before: Db, after: Db, r: Result<int, Error>, account: AccountId, i: IdentityId,
                             audited: bool, t: int) {
    && (r.Ok? <==> ActiveAccount(before, account) && i in IdentitiesOf(before, account) && audited)
    && (r.Ok? ==>
          && OnlyIdentity(before, after, i) && Silent(after, i) && Retired(before, after, {i}, t)
          && after.keys.Keys == before.keys.Keys && KeysRevoked(before.keys, after.keys, i, t))
  }

  lemma RevokeMeans(db: Db, account: AccountId, i: IdentityId, audited: bool, t: int)
    ensures var o := Revoke(db, account, i, audited, t);
            (o.reply.Err? ==> o.db == db) && RevokedFor(db, o.db, o.reply, account, i, audited, t)
  {
    hide Retire, Retired, Quieted, Silent, OnlyIdentity;
    if i in db.identities {
      RevokedRows(db, i, t);
    }
  }

  /** The rows that revoking an identity leaves. */
  lemma RevokedRows(db: Db, i: IdentityId, t: int)
    requires i in db.identities
    ensures var after := RevokeIdentity(db, i, t);
            && OnlyIdentity(db, after, i) && Silent(after, i) && Retired(db, after, {i}, t)
            && after.keys.Keys == db.keys.Keys && KeysRevoked(db.keys, after.keys, i, t)
  {
    hide Retire;
    var revoked := db.(keys := RevokeKeys(db.keys, i, t));
    var after := RevokeIdentity(db, i, t);
    RetireMeans(revoked, {i}, t);
    RetiredQuieted(revoked, after, {i}, t);
    RetiredAlike(revoked, after, db, after, {i}, t);
    RetiredQuieted(db, after, {i}, t);
    RetiredAlone(db, after, i, t) by {
      assert Retired(db, after, {i}, t);
    }
    hide Quieted, Silent, OnlyIdentity;
  }

  /**
   Accepted exactly for a trusted owner that names the current generation, with room and an
   audit; the new key is the only one and the identity silent.
   */
  ghost predicate RotatedFor(
      before: Db, after: Db, r: Result<int, Error>, account: AccountId, i: IdentityId, expected: nat, k: KeyId,
      secret: Secret, settings: Settings, audited: bool, t: int, u: int)
  {
    && (r.Ok? <==>
          && expected < I64_MAX && audited && Trusted(before, account) && i in IdentitiesOf(before, account)
          && before.identities[i].generation == expected && k !in before.keys
          && |RecentKeys(before, account, t)| < settings.issuancesPerHour)
    && (r.Ok? ==>
          && r.value == expected + 1 && OnlyIdentity(before, after, i) && Silent(after, i)
             && OnlyKey(after, i, k, secret)
          && Quieted(before, after, {i}, u) && Unbound(before.identities[i], after.identities[i], expected + 1)
          && after.keys.Keys == before.keys.Keys + {k} && KeysRevoked(before.keys, after.keys, i, u)
          && after.keys[k] == Key(i, secret, expected + 1, u, None))
  }

  /** No key of the next generation exists, so only the new key's id can be taken. */
  lemma NextInsertable(db: Db, i: IdentityId, k: KeyId, u: int)
    requires Inv(db) && i in db.identities
    ensures KeyInsertable(RevokeKeys(db.keys, i, u), k, i, db.identities[i].generation + 1) <==> k !in db.keys
  {
  }

  lemma RotateMeans(db: Db, account: AccountId, i: IdentityId, expected: nat, k: KeyId, secret: Secret,
                    settings: Settings, audited: bool, t: int, u: int)
    requires Inv(db)
    ensures var o := Rotate(db, account, i, expected, k, secret, settings, audited, t, u);
            && (o.reply.Err? ==> o.db == db)
            && RotatedFor(db, o.db, o.reply, account, i, expected, k, secret, settings, audited, t, u)
  {
    hide Inv, IssuanceExceeded, CheckCaller, Trusted, RecentKeys, KeyInsertable, RevokeIdentity, OnlyIdentity, OnlyKey;
    hide Silent, Quieted, Unbound, KeysRevoked, Owned;
    TrustedExactly(db, account);
    CountedExactly(db, account, settings, t);
    if i in db.identities && db.identities[i].generation == expected {
      NextInsertable(db, i, k, u);
      RotatedKeys(db, i, expected, u);
      if k !in db.keys {
        RotatedRows(db, i, expected, k, secret, u);
      }
    }
  }

  lemma RotatedKeys(db: Db, i: IdentityId, expected: nat, u: int)
    requires i in db.identities
    ensures RevokeIdentity(db.(identities := db.identities[i := db.identities[i].(generation := expected + 1)]), i,
                           u).keys
         == RevokeKeys(db.keys, i, u)
  {
  }

  /** The rows a rotation leaves. */
  lemma RotatedRows(db: Db, i: IdentityId, expected: nat, k: KeyId, secret: Secret, u: int)
    requires i in db.identities && db.identities[i].generation == expected && k !in db.keys
    ensures var bumped := db.(identities := db.identities[i := db.identities[i].(generation := expected + 1)]);
            var revoked := RevokeIdentity(bumped, i, u);
            var after := revoked.(keys := revoked.keys[k := Key(i, secret, expected + 1, u, None)]);
            && OnlyIdentity(db, after, i) && Silent(after, i) && OnlyKey(after, i, k, secret)
            && Quieted(db, after, {i}, u) && Unbound(db.identities[i], after.identities[i], expected + 1)
            && after.keys.Keys == db.keys.Keys + {k} && KeysRevoked(db.keys, after.keys, i, u)
  {
    hide RevokeIdentity, OnlyIdentity, Quieted;
    var bumped := db.(identities := db.identities[i := db.identities[i].(generation := expected + 1)]);
    var revoked := RevokeIdentity(bumped, i, u);
    var after := revoked.(keys := revoked.keys[k := Key(i, secret, expected + 1, u, None)]);
    RevokedRows(bumped, i, u);
    RevokedTables(bumped, i, u);
    RetiredAlike(bumped, revoked, db, after, {i}, u);
    RetiredAlone(db, after, i, u);
  }

  lemma RevokedTables(db: Db, i: IdentityId, t: int)
    ensures var after := RevokeIdentity(db, i, t); after == db.(keys := after.keys, identities := after.identities,
                                                            sessions := after.sessions, appearances :=
                                                                after.appearances)
  {
    hide RevokeKeys, RevokeSessions, Unbind;
  }

  // ----- sessions -----

  /** An unrevoked key of the account's own, with its secret; its generation is the current one. */
  ghost predicate Presents(db: Db, account: AccountId, key: OfflineKey) {
    && key.id in db.keys && db.keys[key.id].revokedAt.None? && db.keys[key.id].secret == key.secret
    && db.keys[key.id].identity in IdentitiesOf(db, account)
  }

  lemma PresentsExactly(db: Db, account: AccountId, key: OfflineKey)
    requires Inv(db)
    ensures KeyUsable(db, account, key) <==> Presents(db, account, key)
  {
  }

  /**
   Accepted exactly for a trusted caller that presents its key and the current binding
   revision, in a minute with room and with an audit. The new session claims the entity
   named for the lifetime of the settings; it is the identity's only unrevoked one, bound
   at the next revision, and nothing is published yet.
   */
  ghost predicate ActivatedFor(
      before: Db, after: Db, r: Result<int, Error>, account: AccountId, key: Option<OfflineKey>, entity: EntityId,
      expected: nat, s: SessionId, token: Secret, settings: Settings, audited: bool, t: int, u: int)
  {
    && (r.Ok? <==>
          && key.Some? && expected < I64_MAX && audited && Trusted(before, account) && s !in before.sessions
          && |RecentSessions(before, account, t)| < settings.activationsPerMinute
          && Presents(before, account, key.value)
          && before.identities[before.keys[key.value.id].identity].binding == expected)
    && (r.Ok? ==>
          var i := before.keys[key.value.id].identity;
          var expires := u + settings.sessionTtlSeconds * 1000;
          && r.value == expected + 1 && OnlyIdentity(before, after, i) && after.keys == before.keys
          && i !in after.appearances && after.sessions.Keys == before.sessions.Keys + {s}
          && after.sessions[s] == Session(i, key.value.id, expected + 1, token, entity, expires, u, None)
          && (forall o | o in before.sessions && before.sessions[o].identity == i ::
                RevokedAt(before.sessions[o], after.sessions[o], u))
          && after.identities[i] == before.identities[i].(binding := expected + 1,
                                                          appearance := before.identities[i].appearance + 1,
                                                          active := Some(s)))
  }

  lemma ActivateMeans(db: Db, account: AccountId, key: Option<OfflineKey>, entity: EntityId, expected: nat,
                      s: SessionId, token: Secret, settings: Settings, audited: bool, t: int, u: int)
    requires Inv(db)
    ensures var o := Activate(db, account, key, entity, expected, s, token, settings, audited, t, u);
            && (o.reply.Err? ==> o.db == db)
            && ActivatedFor(db, o.db, o.reply, account, key, entity, expected, s, token, settings, audited, t, u)
  {
    hide Inv, ActivationExceeded, RecentSessions;
    CountedExactly(db, account, settings, t);
    if key.Some? {
      PresentsExactly(db, account, key.value);
    }
    hide KeyUsable;
  }

  /** An activation with a positive lifetime makes its identity a publisher of the entity it names, and of no other. */
  lemma ActivatedPublishes(
      before: Db, after: Db, r: Result<int, Error>, account: AccountId, key: Option<OfflineKey>, entity: EntityId,
      expected: nat, s: SessionId, token: Secret, settings: Settings, audited: bool, t: int, u: int)
    requires ActivatedFor(before, after, r, account, key, entity, expected, s, token, settings, audited, t, u) && r.Ok?
    ensures var i := before.keys[key.value.id].identity;
            && (forall time ::
                  i in Publishers(after, entity, time) <==> time < u + settings.sessionTtlSeconds * 1000)
            && (forall other, time | other != entity :: i !in Publishers(after, other, time))
            && (forall time | time < u + settings.sessionTtlSeconds * 1000 :: Live(after, account, s, token, time))
  {
    hide RecentSessions;
  }

  // ----- decisions -----

  /** Accepted exactly for an account that is not disabled, with an audit; a revocation silences all its identities. */
  ghost predicate DecidedFor(before: Db, after: Db, r: Result<int, Error>, account: AccountId, approve: bool,
                             audited: bool, t: int) {
    && (r.Ok? <==> ActiveAccount(before, account) && audited)
    && (r.Ok? ==>
          && StatusOf(after, account) == (if approve then Approved else Revoked)
          && (forall a | a != account :: StatusOf(after, a) == StatusOf(before, a))
          && after.keys == before.keys && after.accounts == before.accounts && after.now == before.now
          && after.enabled == before.enabled && after.mode == before.mode
          && Retired(before, after, if approve then {} else IdentitiesOf(before, account), t)
          && (!approve ==> forall i | i in IdentitiesOf(before, account) :: Silent(after, i)))
  }

  lemma DecideMeans(db: Db, account: AccountId, approve: bool, audited: bool, t: int)
    ensures var o := Decide(db, account, approve, audited, t);
            (o.reply.Err? ==> o.db == db) && DecidedFor(db, o.db, o.reply, account, approve, audited, t)
  {
    hide Retire, Retired, Quieted, Silent;
    var decided := db.(auths := db.auths[account := if approve then Approved else Revoked]);
    var after := if approve then decided else Retire(decided, Owned(db, account), t);
    assert Owned(db, account) == IdentitiesOf(db, account);
    if approve {
      NothingRetired(db, after, t);
    } else {
      RetireMeans(decided, Owned(db, account), t);
      RetiredQuieted(decided, after, Owned(db, account), t);
      RetiredAlike(decided, after, db, after, Owned(db, account), t);
    }
  }

  // ----- refusals -----

  /** What an error tells its caller about the tables and the call. */
  ghost predicate Explains(db: Db, op: Op, error: Error, t: int)
    requires !op.OpConfigure? && !op.OpStartup?
  {
    match error
    case Disabled => !db.enabled
    case Unauthenticated => op.account !in db.accounts || db.accounts[op.account]
    case AuthorizationPending => op.account !in db.auths || db.auths[op.account] in {Pending, NotRequested}
    case AuthorizationDenied => op.account in db.auths && db.auths[op.account] == Revoked
    case RateLimited =>
      || (op.OpActivate? && |RecentSessions(db, op.account, t)| >= op.settings.activationsPerMinute)
      || ((op.OpIssue? || op.OpEnroll? || op.OpRotate?)
          && |RecentKeys(db, op.account, t)| >= op.settings.issuancesPerHour)
    case IdentityQuota =>
      (op.OpIssue? || op.OpEnroll?) && |IdentitiesOf(db, op.account)| >= op.settings.maxIdentities
    case InvalidMetadata =>
      || (op.OpIssue? && !op.labelled)
      || (op.OpEnroll? && op.key.None?)
      || (op.OpRotate? && op.generation >= I64_MAX)
      || (op.OpPublish? && (op.expected >= I64_MAX || op.binding >= I64_MAX))
    case KeyRevoked =>
      op.OpEnroll? && op.key.Some? && op.key.value.id in db.keys && db.keys[op.key.value.id].revokedAt.Some?
    case KeyInvalid =>
      || (op.OpEnroll? && op.key.Some? && op.key.value.id in db.keys
          && (db.keys[op.key.value.id].identity !in IdentitiesOf(db, op.account)
              || db.keys[op.key.value.id].secret != op.key.value.secret))
      || (op.OpActivate? && (op.key.None? || op.expected >= I64_MAX || !Presents(db, op.account, op.key.value)))
      || (op.OpRotate? && (op.identity !in IdentitiesOf(db, op.account)
                           || db.identities[op.identity].generation != op.generation))
      || (op.OpRevoke? && op.identity !in IdentitiesOf(db, op.account))
    case SessionExpired =>
      && (op.OpPublish? || op.OpWithdraw?)
      && (op.session in db.sessions ==>
            || db.sessions[op.session].identity !in IdentitiesOf(db, op.account)
            || db.sessions[op.session].token != op.token
            || db.sessions[op.session].expiresAt <= t)
    case BindingStale =>
      || (op.OpActivate? && op.key.Some? && Presents(db, op.account, op.key.value)
          && db.identities[db.keys[op.key.value.id].identity].binding != op.expected)
      || ((op.OpPublish? || op.OpWithdraw?) && op.session in db.sessions
          && db.sessions[op.session].identity in IdentitiesOf(db, op.account)
          && (db.identities[db.sessions[op.session].identity].active != Some(op.session)
              || (op.OpPublish? && db.sessions[op.session].binding != op.binding)))
    case RevisionConflict =>
      && op.OpPublish? && op.session in db.sessions
      && db.sessions[op.session].identity in IdentitiesOf(db, op.account)
      && db.identities[db.sessions[op.session].identity].appearance != op.expected
    case Constraint =>
      || (op.OpIssue? && (op.identity in db.identities || op.keyId in db.keys))
      || (op.OpEnroll? && op.identity in db.identities)
      || (op.OpRotate? && op.keyId in db.keys)
      || (op.OpActivate? && op.session in db.sessions)
    case NotAdmitted => if op.OpPublish? then !op.admitted else !op.OpWithdraw? && !op.OpSetAccount? && !op.audited
  }

  /** How far the checks got: an error also says that those before it passed. */
  ghost predicate Reached(db: Db, op: Op, error: Error, t: int)
    requires !op.OpConfigure? && !op.OpStartup?
  {
    var format := error == InvalidMetadata || (op.OpActivate? && error == KeyInvalid);
    && (!op.OpRevoke? && !op.OpDecide? && error != Disabled && !format ==> db.enabled)
    && (error != Disabled && error != Unauthenticated && !format ==> ActiveAccount(db, op.account))
    && ((op.OpIssue? || op.OpEnroll? || op.OpRotate? || op.OpPublish? || op.OpWithdraw?)
        && error !in {Disabled, InvalidMetadata, Unauthenticated, AuthorizationPending, AuthorizationDenied} ==>
          Trusted(db, op.account))
    && (op.OpActivate?
        && error in {AuthorizationPending, AuthorizationDenied, BindingStale, Constraint, NotAdmitted} ==>
          && op.key.Some? && Presents(db, op.account, op.key.value)
          && |RecentSessions(db, op.account, t)| < op.settings.activationsPerMinute)
    && (op.OpActivate? && error in {BindingStale, Constraint, NotAdmitted} ==> Trusted(db, op.account))
    && ((op.OpIssue? || op.OpEnroll?) && error in {IdentityQuota, Constraint, NotAdmitted} ==>
          |RecentKeys(db, op.account, t)| < op.settings.issuancesPerHour)
    && (op.OpRotate? && error in {KeyInvalid, Constraint, NotAdmitted} ==>
          |RecentKeys(db, op.account, t)| < op.settings.issuancesPerHour)
  }

  /** Why a session of a trusted caller is refused. */
  lemma RefusedSession(db: Db, account: AccountId, s: SessionId, token: Secret, t: int)
    requires Inv(db) && Authorize(db, account, s, token, t).Some?
    ensures var error := Authorize(db, account, s, token, t).value;
            CheckCaller(db, account).None? ==>
              && (error == SessionExpired || error == BindingStale)
              && (error == BindingStale ==>
                    && s in db.sessions && db.sessions[s].identity in IdentitiesOf(db, account)
                    && db.identities[db.sessions[s].identity].active != Some(s))
              && (error == SessionExpired && s in db.sessions ==>
                    || db.sessions[s].identity !in IdentitiesOf(db, account)
                    || db.sessions[s].token != token || db.sessions[s].expiresAt <= t)
  {
  }

  lemma RefusedPublish(db: Db, op: Op, t: int, u: int)
    requires Inv(db) && op.OpPublish? && Transact(db, op, t, u).reply.Err?
    ensures Explains(db, op, Transact(db, op, t, u).reply.error, t)
    ensures Reached(db, op, Transact(db, op, t, u).reply.error, t)
  {
    if Authorize(db, op.account, op.session, op.token, t).Some? {
      RefusedSession(db, op.account, op.session, op.token, t);
    } else {
      AuthorizeExactly(db, op.account, op.session, op.token, t);
    }
    hide Inv, Authorize, RecentKeys, RecentSessions;
  }

  lemma RefusedWithdraw(db: Db, op: Op, t: int, u: int)
    requires Inv(db) && op.OpWithdraw? && Transact(db, op, t, u).reply.Err?
    ensures Explains(db, op, Transact(db, op, t, u).reply.error, t)
    ensures Reached(db, op, Transact(db, op, t, u).reply.error, t)
  {
    if Authorize(db, op.account, op.session, op.token, t).Some? {
      RefusedSession(db, op.account, op.session, op.token, t);
    } else {
      WithdrawIsRetire(db, op.account, op.session, op.token, t, u);
    }
    hide Inv, Authorize, RecentKeys, RecentSessions, Retire;
  }

  lemma RefusedIssue(db: Db, op: Op, t: int, u: int)
    requires Inv(db) && (op.OpIssue? || op.OpEnroll?) && Transact(db, op, t, u).reply.Err?
    ensures Explains(db, op, Transact(db, op, t, u).reply.error, t)
    ensures Reached(db, op, Transact(db, op, t, u).reply.error, t)
  {
    hide Inv, IssuanceExceeded, RecentKeys, KeyInsertable, AddIdentity;
    CountedExactly(db, op.account, op.settings, t);
    KeysOwned(db);
    if op.identity !in db.identities {
      FreshInsertable(db, op.identity, if op.OpIssue? then op.keyId else if op.key.Some? then op.key.value.id else 0);
    }
  }

  lemma RefusedRotate(db: Db, op: Op, t: int, u: int)
    requires Inv(db) && op.OpRotate? && Transact(db, op, t, u).reply.Err?
    ensures Explains(db, op, Transact(db, op, t, u).reply.error, t)
    ensures Reached(db, op, Transact(db, op, t, u).reply.error, t)
  {
    hide Inv, IssuanceExceeded, RecentKeys, KeyInsertable, RevokeIdentity;
    CountedExactly(db, op.account, op.settings, t);
    if op.identity in db.identities && db.identities[op.identity].generation == op.generation {
      NextInsertable(db, op.identity, op.keyId, u);
      RotatedKeys(db, op.identity, op.generation, u);
    }
  }

  lemma RefusedActivate(db: Db, op: Op, t: int, u: int)
    requires Inv(db) && op.OpActivate? && Transact(db, op, t, u).reply.Err?
    ensures Explains(db, op, Transact(db, op, t, u).reply.error, t)
    ensures Reached(db, op, Transact(db, op, t, u).reply.error, t)
  {
    hide Inv, ActivationExceeded, RecentSessions, RevokeSessions;
    CountedExactly(db, op.account, op.settings, t);
    if op.key.Some? {
      PresentsExactly(db, op.account, op.key.value);
    }
    hide KeyUsable;
  }

  /**
   Every error an operation is refused with says something true of the tables and the call,
   and that the checks before it passed.
   */
  lemma ErrorsTellTheTruth(db: Db, op: Op, t: int, u: int)
    requires Inv(db) && Transact(db, op, t, u).reply.Err?
    ensures !op.OpConfigure? && !op.OpStartup? && Explains(db, op, Transact(db, op, t, u).reply.error, t)
    ensures Reached(db, op, Transact(db, op, t, u).reply.error, t)
  {
    hide Inv, Issue, Enroll, Rotate, Activate, Publish, Withdraw, Retire, RevokeIdentity;
    match op {
      case OpIssue(_, _, _, _, _, _, _) => RefusedIssue(db, op, t, u);
      case OpEnroll(_, _, _, _, _) => RefusedIssue(db, op, t, u);
      case OpRotate(_, _, _, _, _, _, _) => RefusedRotate(db, op, t, u);
      case OpActivate(_, _, _, _, _, _, _, _) => RefusedActivate(db, op, t, u);
      case OpPublish(_, _, _, _, _, _, _, _) => RefusedPublish(db, op, t, u);
      case OpWithdraw(_, _, _) => RefusedWithdraw(db, op, t, u);
      case OpRequest(_, _) =>
      case OpRevoke(_, _, _) =>
      case OpDecide(_, _, _) =>
      case OpSetAccount(_, _) =>
      case OpConfigure(_) =>
      case OpStartup(_) =>
    }
  }
}
