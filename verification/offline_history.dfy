/**
 What holds along whole runs of the offline-identity machine: when a session is
 accepted, that an ended session stays ended, and how the two revision counters
 order publications.
 */
module OfflineHistory {
  import opened Outcomes
  import opened OfflineTables
  import opened OfflineTransactions
  import opened OfflineInvariant

  // ----- when a session is accepted -----

  /**
   In a safe state the nine checks of `authorize` come down to five: the caller
   is an active account, owns the session, presents its token, the session is
   its identity's active one, and it has not expired.
   */
  lemma AuthorizeExactly(db: Db, account: AccountId, s: SessionId, token: Secret, t: int)
    requires Inv(db)
    ensures Authorize(db, account, s, token, t).None? <==>
            && ActiveAccount(db, account)
            && s in db.sessions
            && db.identities[db.sessions[s].identity].account == account
            && db.sessions[s].token == token
            && db.identities[db.sessions[s].identity].active == Some(s)
            && t < db.sessions[s].expiresAt
  {
  }

  // ----- ended sessions -----

  /** A session that is not its identity's active one any more, or that has lapsed. */
  ghost predicate Ended(db: Db, s: SessionId) {
    s in db.sessions && (!ActiveIn(db, s) || db.sessions[s].expiresAt <= db.now)
  }

  ghost predicate ActiveIn(db: Db, s: SessionId) {
    s in db.sessions && db.sessions[s].identity in db.identities &&
    db.identities[db.sessions[s].identity].active == Some(s)
  }

  /** The sessions an accepted operation ends. */
  ghost function Ends(db: Db, op: Op): set<SessionId> {
    match op
    case OpActivate(_, key, _, _, _, _, _, _) =>
      if key.Some? && key.value.id in db.keys then SessionsOf(db, {db.keys[key.value.id].identity}) else {}
    case OpRotate(_, i, _, _, _, _, _) => SessionsOf(db, {i})
    case OpRevoke(_, i, _) => SessionsOf(db, {i})
    case OpWithdraw(_, s, _) => if s in db.sessions then {s} else {}
    case OpDecide(account, approve, _) => if approve then {} else SessionsOf(db, Owned(db, account))
    case OpConfigure(mode) => if mode == ModeDisabled then db.sessions.Keys else {}
    case OpStartup(_) => db.sessions.Keys
    case _ => {}
  }

  /** The part of a step that can end or extend the session `s`, with everything else forgotten. */
  ghost predicate SessionKept(before: Db, after: Db, s: SessionId)
    requires s in before.sessions
  {
    && s in after.sessions
    && after.sessions[s].identity == before.sessions[s].identity
    && after.sessions[s].binding == before.sessions[s].binding
    && after.sessions[s].identity in after.identities
  }

  /** The fate of one session over one transaction. */
  ghost predicate Fate(before: Db, op: Op, after: Outcome, s: SessionId, t: int, u: int)
    requires s in before.sessions
  {
    && SessionKept(before, after.db, s)
    && (ActiveIn(after.db, s) ==> ActiveIn(before, s))
    && (after.reply.Ok? && s in Ends(before, op) ==> !ActiveIn(after.db, s))
    && (ActiveIn(before, s) && !ActiveIn(after.db, s) ==> after.reply.Ok? && s in Ends(before, op))
    && (after.db.sessions[s].expiresAt != before.sessions[s].expiresAt ==>
          op.OpPublish? && op.session == s && after.reply.Ok? && t < before.sessions[s].expiresAt &&
          after.db.sessions[s].expiresAt == u + op.ttl * 1000)
  }

  lemma RetireFate(db: Db, owners: set<IdentityId>, t: int, s: SessionId)
    requires Inv(db) && s in db.sessions
    ensures SessionKept(db, Retire(db, owners, t), s)
    ensures ActiveIn(Retire(db, owners, t), s) <==> ActiveIn(db, s) && s !in SessionsOf(db, owners)
    ensures Retire(db, owners, t).sessions[s].expiresAt == db.sessions[s].expiresAt
  {
  }

  lemma ActivateFate(db: Db, op: Op, t: int, u: int, s: SessionId)
    requires Inv(db) && s in db.sessions && op.OpActivate?
    ensures Fate(db, op, Transact(db, op, t, u), s, t, u)
  {
    hide Request, Issue, Enroll, Rotate, Revoke, Publish, Withdraw, Decide, Configure, Startup;
  }

  lemma RotateFate(db: Db, op: Op, t: int, u: int, s: SessionId)
    requires Inv(db) && s in db.sessions && op.OpRotate?
    ensures Fate(db, op, Transact(db, op, t, u), s, t, u)
  {
    hide Inv, Rotate, Retire, RevokeIdentity, RevokeKeys;
    var i := op.identity;
    SessionOwned(db, s);
    if Rotate(db, op.account, i, op.generation, op.keyId, op.secret, op.settings, op.audited, t, u).reply.Ok? {
      RotateIsRevokeThenKey(db, op.account, i, op.generation, op.keyId, op.secret, op.settings, op.audited, t, u);
      RevokeIdentityIsRetire(db, i, u);
      RetireFate(db, {i}, u, s);
    } else {
      RefusedRotation(db, op, t, u);
    }
  }

  lemma RefusedRotation(db: Db, op: Op, t: int, u: int)
    requires op.OpRotate? && Transact(db, op, t, u).reply.Err?
    ensures Transact(db, op, t, u).db == db
  {
    hide RevokeIdentity, KeyInsertable;
  }

  lemma PublishFate(db: Db, op: Op, t: int, u: int, s: SessionId)
    requires Inv(db) && s in db.sessions && op.OpPublish?
    ensures Fate(db, op, Transact(db, op, t, u), s, t, u)
  {
    hide Request, Issue, Enroll, Rotate, Revoke, Activate, Withdraw, Decide, Configure, Startup;
  }

  lemma WithdrawFate(db: Db, op: Op, t: int, u: int, s: SessionId)
    requires Inv(db) && s in db.sessions && op.OpWithdraw?
    ensures Fate(db, op, Transact(db, op, t, u), s, t, u)
  {
    hide Request, Issue, Enroll, Rotate, Revoke, Activate, Publish, Decide, Configure, Startup;
  }

  lemma RevokeFate(db: Db, op: Op, t: int, u: int, s: SessionId)
    requires Inv(db) && s in db.sessions && op.OpRevoke?
    ensures Fate(db, op, Transact(db, op, t, u), s, t, u)
  {
    hide Inv;
    RetireFate(db, {op.identity}, t, s);
    RevokeIdentityIsRetire(db, op.identity, t);
    hide RevokeIdentity, Retire;
    assert Revoke(db, op.account, op.identity, op.audited, t).reply.Ok? ==>
      Transact(db, op, t, u).db == RevokeIdentity(db, op.identity, t);
  }

  lemma DecideFate(db: Db, op: Op, t: int, u: int, s: SessionId)
    requires Inv(db) && s in db.sessions && op.OpDecide?
    ensures Fate(db, op, Transact(db, op, t, u), s, t, u)
  {
    hide Inv;
    RetireFate(db, Owned(db, op.account), t, s);
    var decided := db.(auths := db.auths[op.account := Revoked]);
    assert Retire(decided, Owned(db, op.account), t) == Retire(db, Owned(db, op.account), t).(auths := decided.auths);
    hide Retire;
  }

  lemma InvalidateFate(db: Db, t: int, s: SessionId)
    requires s in db.sessions && db.sessions[s].identity in db.identities
    ensures SessionKept(db, InvalidateSessions(db, t), s)
    ensures !ActiveIn(InvalidateSessions(db, t), s)
    ensures InvalidateSessions(db, t).sessions[s].expiresAt == db.sessions[s].expiresAt
  {
  }

  lemma SwitchFate(db: Db, op: Op, t: int, u: int, s: SessionId)
    requires s in db.sessions && db.sessions[s].identity in db.identities
    requires op.OpConfigure? || op.OpStartup?
    ensures Fate(db, op, Transact(db, op, t, u), s, t, u)
  {
    hide InvalidateSessions;
    var first := if op.OpStartup? then InvalidateSessions(db, t) else db;
    InvalidateFate(db, t, s);
    InvalidateFate(first.(mode := op.mode), t, s);
  }

  lemma InsertingFate(db: Db, op: Op, t: int, u: int, s: SessionId)
    requires Inv(db) && s in db.sessions
    requires op.OpRequest? || op.OpIssue? || op.OpEnroll? || op.OpSetAccount?
    ensures Fate(db, op, Transact(db, op, t, u), s, t, u)
  {
    hide Inv, Fate, Transact, ActiveIn, SessionKept;
    SessionOwned(db, s);
    InsertingKeeps(db, op, t, u);
    UntouchedFate(db, op, Transact(db, op, t, u), s, t, u);
  }

  /** Sessions stay, and so do identities, but for a new one. */
  lemma InsertingKeeps(db: Db, op: Op, t: int, u: int)
    requires op.OpRequest? || op.OpIssue? || op.OpEnroll? || op.OpSetAccount?
    ensures var after := Transact(db, op, t, u).db;
            after.sessions == db.sessions && forall i | i in db.identities ::
              i in after.identities && after.identities[i] == db.identities[i]
  {
    hide IssuanceExceeded, KeyInsertable, Rotate, Revoke, Activate, Publish, Withdraw, Decide, Configure, Startup;
  }

  lemma UntouchedFate(db: Db, op: Op, after: Outcome, s: SessionId, t: int, u: int)
    requires s in db.sessions && db.sessions[s].identity in db.identities && Ends(db, op) == {}
    requires after.db.sessions == db.sessions
    requires forall i | i in db.identities :: i in after.db.identities && after.db.identities[i] == db.identities[i]
    ensures Fate(db, op, after, s, t, u)
  {
  }

  lemma SessionOwned(db: Db, s: SessionId)
    requires Inv(db) && s in db.sessions
    ensures db.sessions[s].identity in db.identities
  {
  }

  lemma TransactFate(db: Db, op: Op, t: int, u: int, s: SessionId)
    requires Inv(db) && s in db.sessions
    ensures Fate(db, op, Transact(db, op, t, u), s, t, u)
  {
    hide Inv, Fate, Transact;
    match op
    case OpActivate(_, _, _, _, _, _, _, _) => ActivateFate(db, op, t, u, s);
    case OpRotate(_, _, _, _, _, _, _) => RotateFate(db, op, t, u, s);
    case OpPublish(_, _, _, _, _, _, _, _) => PublishFate(db, op, t, u, s);
    case OpWithdraw(_, _, _) => WithdrawFate(db, op, t, u, s);
    case OpRevoke(_, _, _) => RevokeFate(db, op, t, u, s);
    case OpDecide(_, _, _) => DecideFate(db, op, t, u, s);
    case OpConfigure(_) => SessionOwned(db, s); SwitchFate(db, op, t, u, s);
    case OpStartup(_) => SessionOwned(db, s); SwitchFate(db, op, t, u, s);
    case _ => InsertingFate(db, op, t, u, s);
  }

  /**
   An ended session stays ended; a live one is ended by a step exactly when the
   step is an accepted operation that ends it, or when its expiry has passed.
   */
  lemma StepEnds(db: Db, op: Op, delay: Delay, s: SessionId)
    requires Inv(db) && s in db.sessions
    ensures var after := Step(db, op, delay);
            && s in after.db.sessions
            && (Ended(db, s) ==> Ended(after.db, s))
            && (!Ended(db, s) ==>
                  (Ended(after.db, s) <==>
                     (after.reply.Ok? && s in Ends(db, op)) || after.db.sessions[s].expiresAt <= after.db.now))
  {
    hide Inv, Transact, Ends;
    var t := db.now + delay.first;
    var outcome := Transact(db, op, t, t + delay.last);
    TransactFate(db, op, t, t + delay.last, s);
    assert ActiveIn(outcome.db.(now := t + delay.last), s) <==> ActiveIn(outcome.db, s);
    assert !Ended(db, s) ==> ActiveIn(db, s) && db.now < db.sessions[s].expiresAt;
  }

  /** No resurrection: along every run, a session that has ended never becomes acceptable again. */
  lemma {:induction false} EndedForever(db: Db, events: seq<Event>, s: SessionId)
    requires Inv(db) && Ended(db, s)
    ensures Ended(Run(db, events), s)
    decreases |events|
  {
    if events != [] {
      var next := Step(db, events[0].op, events[0].delay).db;
      StepKeepsInv(db, events[0].op, events[0].delay);
      StepEnds(db, events[0].op, events[0].delay, s);
      hide Step;
      EndedForever(next, events[1..], s);
    }
  }

  lemma EndedUnauthorized(db: Db, s: SessionId, account: AccountId, token: Secret, t: int)
    requires Inv(db) && Ended(db, s) && db.now <= t
    ensures Authorize(db, account, s, token, t).Some?
  {
    hide Authorize;
    AuthorizeExactly(db, account, s, token, t);
  }

  lemma EndedIsRefused(db: Db, s: SessionId, op: Op, delay: Delay)
    requires Inv(db) && Ended(db, s)
    requires (op.OpPublish? || op.OpWithdraw?) && op.session == s
    ensures Step(db, op, delay).reply.Err?
    ensures Step(db, op, delay).db == db.(now := db.now + delay.first + delay.last)
  {
    hide Inv, Ended, Authorize, Issue, Enroll, Rotate, Revoke, Activate, Decide, Configure, Startup, Request;
    EndedUnauthorized(db, s, op.account, op.token, db.now + delay.first);
  }

  /**
   Through an ended session nothing is accepted at any later time: publishing and
   withdrawing are refused and change nothing but the clock.
   */
  lemma EndedIsInert(db: Db, events: seq<Event>, s: SessionId, op: Op, delay: Delay)
    requires Inv(db) && Ended(db, s)
    requires (op.OpPublish? || op.OpWithdraw?) && op.session == s
    ensures var later := Run(db, events);
            && Step(later, op, delay).reply.Err?
            && Step(later, op, delay).db == later.(now := later.now + delay.first + delay.last)
  {
    hide Inv, Run, Step, Ended;
    RunKeepsInv(db, events);
    EndedForever(db, events, s);
    EndedIsRefused(Run(db, events), s, op, delay);
  }

  /**
   A session whose expiry passes while a step runs is ended by that step, unless the step
   publishes through the very session.
   */
  lemma LapsingNeedsPublish(db: Db, op: Op, delay: Delay, s: SessionId)
    requires Inv(db) && s in db.sessions && !Ended(db, s)
    requires db.sessions[s].expiresAt <= Step(db, op, delay).db.now
    ensures !Ended(Step(db, op, delay).db, s)
       <==> op.OpPublish? && op.session == s && Step(db, op, delay).reply.Ok? && op.ttl > 0
  {
    hide Inv, Step, Ends;
    StepEnds(db, op, delay, s);
    ExpiryMoves(db, op, delay, s);
    if op.OpPublish? && op.session == s && Step(db, op, delay).reply.Ok? {
      PublishRenews(db, op, delay);
    }
  }

  /** Only an accepted publish through a session moves its expiry. */
  lemma ExpiryMoves(db: Db, op: Op, delay: Delay, s: SessionId)
    requires Inv(db) && s in db.sessions
    ensures var after := Step(db, op, delay);
            && s in after.db.sessions
            && (after.db.sessions[s].expiresAt != db.sessions[s].expiresAt
                ==> op.OpPublish? && op.session == s && after.reply.Ok?)
  {
    hide Inv, Transact, Ends;
    TransactFate(db, op, db.now + delay.first, db.now + delay.first + delay.last, s);
  }

  /** An accepted publish leaves its session live, with a new expiry, unless it asks for no time at all. */
  lemma PublishRenews(db: Db, op: Op, delay: Delay)
    requires Inv(db) && op.OpPublish? && Step(db, op, delay).reply.Ok?
    ensures var after := Step(db, op, delay).db;
            && !Ended(db, op.session) && op.session in after.sessions
            && after.sessions[op.session].expiresAt == after.now + op.ttl * 1000
            && (Ended(after, op.session) <==> op.ttl == 0)
  {
    AuthorizeExactly(db, op.account, op.session, op.token, db.now + delay.first);
  }

  // ----- revisions -----

  /** Rows are never deleted or reassigned, and the two revisions of an identity never decrease. */
  ghost predicate Grown(before: Db, after: Db) {
    && before.now <= after.now
    && (forall i | i in before.identities ::
          && i in after.identities
          && after.identities[i].account == before.identities[i].account
          && before.identities[i].generation <= after.identities[i].generation
          && before.identities[i].binding <= after.identities[i].binding
          && before.identities[i].appearance <= after.identities[i].appearance)
    && (forall s | s in before.sessions ::
          && s in after.sessions
          && after.sessions[s].identity == before.sessions[s].identity
          && after.sessions[s].binding == before.sessions[s].binding)
  }

  lemma RetireGrown(db: Db, owners: set<IdentityId>, t: int)
    ensures Grown(db, Retire(db, owners, t))
  {
  }

  lemma InvalidateGrown(db: Db, t: int)
    ensures Grown(db, InvalidateSessions(db, t))
  {
  }

  lemma {:induction false} GrownTransitive(a: Db, b: Db, c: Db)
    requires Grown(a, b) && Grown(b, c)
    ensures Grown(a, c)
  {
  }

  lemma SwitchGrown(db: Db, op: Op, t: int, u: int)
    requires op.OpConfigure? || op.OpStartup?
    ensures Grown(db, Transact(db, op, t, u).db)
  {
    hide InvalidateSessions;
    var first := if op.OpStartup? then InvalidateSessions(db, t) else db;
    InvalidateGrown(db, t);
    InvalidateGrown(first.(mode := op.mode), t);
  }

  lemma InsertGrown(db: Db, op: Op, t: int, u: int)
    requires op.OpRequest? || op.OpIssue? || op.OpEnroll? || op.OpSetAccount?
    ensures Grown(db, Transact(db, op, t, u).db)
  {
    hide Rotate, Revoke, Activate, Publish, Withdraw, Decide, Configure, Startup;
  }

  lemma ActivateGrown(db: Db, op: Op, t: int, u: int)
    requires op.OpActivate? || op.OpPublish?
    ensures Grown(db, Transact(db, op, t, u).db)
  {
    hide Request, Issue, Enroll, Rotate, Revoke, Withdraw, Decide, Configure, Startup;
  }

  lemma RevokeIdentityGrown(db: Db, i: IdentityId, t: int)
    ensures Grown(db, RevokeIdentity(db, i, t))
    ensures i in db.identities ==> RevokeIdentity(db, i, t).identities[i].generation == db.identities[i].generation
  {
    RetireGrown(db.(keys := RevokeKeys(db.keys, i, t)), {i}, t);
  }

  lemma RevokeGrown(db: Db, op: Op, t: int, u: int)
    requires op.OpRevoke? || op.OpDecide?
    ensures Grown(db, Transact(db, op, t, u).db)
  {
    hide Request, Issue, Enroll, Rotate, Activate, Publish, Withdraw, Configure, Startup, RevokeIdentity, Retire;
    if op.OpRevoke? {
      RevokeIdentityGrown(db, op.identity, t);
    } else {
      RetireGrown(db.(auths := db.auths[op.account := Revoked]), Owned(db, op.account), t);
    }
  }

  lemma RotateGrown(db: Db, op: Op, t: int, u: int)
    requires op.OpRotate?
    ensures Grown(db, Transact(db, op, t, u).db)
  {
    if Rotate(db, op.account, op.identity, op.generation, op.keyId, op.secret, op.settings, op.audited, t,
              u).reply.Ok? {
      RotateIsRevokeThenKey(db, op.account, op.identity, op.generation, op.keyId, op.secret, op.settings, op.audited,
                            t, u);
      RevokeIdentityGrown(db, op.identity, u);
      hide Rotate, RevokeIdentity;
    }
    hide Request, Issue, Enroll, Revoke, Activate, Publish, Withdraw, Decide, Configure, Startup;
  }

  lemma WithdrawGrown(db: Db, op: Op, t: int, u: int)
    requires op.OpWithdraw?
    ensures Grown(db, Transact(db, op, t, u).db)
  {
    hide Request, Issue, Enroll, Rotate, Revoke, Activate, Publish, Decide, Configure, Startup;
  }

  lemma StepGrown(db: Db, op: Op, delay: Delay)
    requires Inv(db)
    ensures Grown(db, Step(db, op, delay).db)
  {
    hide Inv, Transact;
    var t := db.now + delay.first;
    var u := t + delay.last;
    match op {
      case OpConfigure(_) => SwitchGrown(db, op, t, u);
      case OpStartup(_) => SwitchGrown(db, op, t, u);
      case OpRevoke(_, _, _) => RevokeGrown(db, op, t, u);
      case OpDecide(_, _, _) => RevokeGrown(db, op, t, u);
      case OpRotate(_, _, _, _, _, _, _) => RotateGrown(db, op, t, u);
      case OpWithdraw(_, _, _) => WithdrawGrown(db, op, t, u);
      case OpActivate(_, _, _, _, _, _, _, _) => ActivateGrown(db, op, t, u);
      case OpPublish(_, _, _, _, _, _, _, _) => ActivateGrown(db, op, t, u);
      case _ => InsertGrown(db, op, t, u);
    }
  }

  lemma {:induction false} RunGrown(db: Db, events: seq<Event>)
    requires Inv(db)
    ensures Grown(db, Run(db, events))
    decreases |events|
  {
    if events != [] {
      hide Inv, Step;
      var next := Step(db, events[0].op, events[0].delay).db;
      StepGrown(db, events[0].op, events[0].delay);
      StepKeepsInv(db, events[0].op, events[0].delay);
      RunGrown(next, events[1..]);
      GrownTransitive(db, next, Run(next, events[1..]));
    }
  }

  /** An accepted publish moves the appearance revision from the expected value to the next one. */
  lemma PublishCounts(db: Db, op: Op, delay: Delay)
    requires Inv(db) && op.OpPublish? && Step(db, op, delay).reply.Ok?
    ensures op.session in db.sessions
    ensures var i := db.sessions[op.session].identity;
            var after := Step(db, op, delay);
            && i in db.identities && i in after.db.identities
            && db.identities[i].appearance == op.expected
            && after.db.identities[i].appearance == op.expected + 1
            && after.reply == Ok(op.expected + 1)
            && after.db.identities[i].binding == db.identities[i].binding == op.binding
            && i in after.db.appearances
            && after.db.appearances[i] == Appearance(op.session, op.binding, op.expected + 1, op.payload)
  {
  }

  /**
   Of two publishes accepted for one identity, through whichever sessions, the
   later one expected a strictly larger revision and no smaller binding: no
   expected revision is accepted twice.
   */
  lemma PublishesOrdered(db: Db, first: Op, delay: Delay, events: seq<Event>, second: Op, delay': Delay)
    requires Inv(db) && first.OpPublish? && second.OpPublish?
    requires Step(db, first, delay).reply.Ok?
    requires var later := Run(Step(db, first, delay).db, events);
             && Step(later, second, delay').reply.Ok?
             && first.session in db.sessions && second.session in later.sessions
             && db.sessions[first.session].identity == later.sessions[second.session].identity
    ensures first.expected < second.expected
    ensures first.binding <= second.binding
  {
    var next := Step(db, first, delay).db;
    var later := Run(next, events);
    StepKeepsInv(db, first, delay);
    RunKeepsInv(next, events);
    RunGrown(next, events);
    PublishCounts(db, first, delay);
    PublishCounts(later, second, delay');
  }

  /** An accepted activation binds its identity at the revision after the expected one, which was the current one. */
  lemma ActivationCounts(db: Db, op: Op, delay: Delay)
    requires op.OpActivate? && Step(db, op, delay).reply.Ok?
    ensures var after := Step(db, op, delay).db;
            && op.session !in db.sessions && op.session in after.sessions
            && var i := after.sessions[op.session].identity;
            && i in db.identities && i in after.identities
            && db.identities[i].binding == op.expected
            && after.sessions[op.session].binding == after.identities[i].binding == op.expected + 1
            && after.identities[i].active == Some(op.session)
  {
    hide Request, Issue, Enroll, Rotate, Revoke, Publish, Withdraw, Decide, Configure, Startup;
  }

  /** A session activated later is bound at a strictly larger revision than every earlier session of its identity. */
  lemma ActivationsOrdered(db: Db, events: seq<Event>, op: Op, delay: Delay, s: SessionId)
    requires Inv(db) && s in db.sessions && op.OpActivate?
    requires var after := Step(Run(db, events), op, delay);
             && after.reply.Ok?
             && op.session in after.db.sessions
             && after.db.sessions[op.session].identity == db.sessions[s].identity
    ensures db.sessions[s].binding < Step(Run(db, events), op, delay).db.sessions[op.session].binding
  {
    var later := Run(db, events);
    assert s in db.sessions && db.sessions[s].identity in db.identities &&
      db.sessions[s].binding <= db.identities[db.sessions[s].identity].binding;
    hide Inv, Run, Step;
    RunGrown(db, events);
    ActivationCounts(later, op, delay);
  }

  // ----- authorization -----

  /** Operations by which an account obtains or uses a key or a session. */
  ghost predicate UsesGrant(op: Op, account: AccountId) {
    match op
    case OpIssue(a, _, _, _, _, _, _) => a == account
    case OpEnroll(a, _, _, _, _) => a == account
    case OpRotate(a, _, _, _, _, _, _) => a == account
    case OpActivate(a, _, _, _, _, _, _, _) => a == account
    case OpPublish(a, _, _, _, _, _, _, _) => a == account
    case OpWithdraw(a, _, _) => a == account
    case _ => false
  }

  lemma NotApprovedRefused(db: Db, op: Op, delay: Delay, account: AccountId)
    requires UsesGrant(op, account) && StatusOf(db, account) != Approved
    ensures Step(db, op, delay).reply.Err?
  {
  }

  ghost predicate Approves(op: Op, account: AccountId) {
    op.OpDecide? && op.account == account && op.approve
  }

  lemma StepStatus(db: Db, op: Op, delay: Delay, account: AccountId)
    requires StatusOf(db, account) == Revoked && !Approves(op, account)
    ensures StatusOf(Step(db, op, delay).db, account) == Revoked
  {
    hide KeysSince, SessionsSince, RevokeKeys, RevokeSessions, Unbind, Owned, SessionsOf;
  }

  /**
   Once an account is revoked, only an administrator's approval brings it back.
   Until then it obtains and uses nothing, even when its request had been granted
   by a first transaction before the revocation slipped in between.
   */
  lemma {:induction false} RevokedUntilApproved(db: Db, events: seq<Event>, account: AccountId, op: Op, delay: Delay)
    requires StatusOf(db, account) == Revoked
    requires forall e | e in events :: !Approves(e.op, account)
    ensures StatusOf(Run(db, events), account) == Revoked
    ensures UsesGrant(op, account) ==> Step(Run(db, events), op, delay).reply.Err?
    decreases |events|
  {
    hide Step, Approves, UsesGrant;
    if events == [] {
      if UsesGrant(op, account) {
        NotApprovedRefused(db, op, delay, account);
      }
    } else {
      assert events[0] in events;
      StepStatus(db, events[0].op, events[0].delay, account);
      RevokedUntilApproved(Step(db, events[0].op, events[0].delay).db, events[1..], account, op, delay);
    }
  }
}
