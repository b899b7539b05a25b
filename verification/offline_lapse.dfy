/** One run from a fresh installation in which a session lapses inside a publish and lives on. */
module OfflineLapse {
  import opened Outcomes
  import opened OfflineTables
  import opened OfflineTransactions
  import opened OfflineHistory

  const SETTINGS := Settings(ModeAutomatic, 1, 10, 5, 5)

  const AT_ONCE := Delay(0, 0)

  const REQUEST := OpRequest(1, true)
  const ISSUE := OpIssue(1, true, 2, 3, 30, SETTINGS, true)
  const ACTIVATE := OpActivate(1, Some(OfflineKey(3, 30)), 5, 0, 4, 40, SETTINGS, true)

  /** Account 1 obtains identity 2 with key 3 and activates session 4, which expires at 10 000. */
  const OPENING := [
    Event(OpSetAccount(1, false), AT_ONCE),
    Event(OpConfigure(ModeAutomatic), AT_ONCE),
    Event(REQUEST, AT_ONCE),
    Event(ISSUE, AT_ONCE),
    Event(ACTIVATE, AT_ONCE)]

  /** The tables once the session is active. */
  const ACTIVE := Db(0, true, ModeAutomatic, map[1 := false], map[1 := Approved],
                     map[2 := Identity(1, 1, 1, 1, Some(4))],
                     map[3 := Key(2, 30, 1, 0, None)],
                     map[4 := Session(2, 3, 1, 40, 5, 10_000, 0, None)],
                     map[])

  /** A publish that reads the clock at 9 999 and again at 10 000. */
  const PUBLISH := OpPublish(1, 4, 40, 1, 1, 6, 10, true)

  const LATE := Delay(9_999, 1)

  lemma RunNext(db: Db, first: Event, rest: seq<Event>)
    ensures Run(db, [first] + rest) == Run(Step(db, first.op, first.delay).db, rest)
  {
    assert ([first] + rest)[1..] == rest;
  }

  lemma Opened()
    ensures Run(Fresh(0), OPENING) == ACTIVE
  {
    hide Step, Run;
    var a := Fresh(0).(accounts := map[1 := false]);
    var b := a.(enabled := true);
    var c := b.(auths := map[1 := Approved]);
    var d := c.(identities := map[2 := Identity(1, 1, 0, 0, None)], keys := map[3 := Key(2, 30, 1, 0, None)]);
    RunNext(Fresh(0), OPENING[0], OPENING[1..]);
    RunNext(a, OPENING[1], OPENING[2..]);
    RunNext(b, OPENING[2], OPENING[3..]);
    RunNext(c, OPENING[3], OPENING[4..]);
    RunNext(d, OPENING[4], []);
    assert OPENING == [OPENING[0]] + OPENING[1..] && OPENING[1..] == [OPENING[1]] + OPENING[2..];
    assert OPENING[2..] == [OPENING[2]] + OPENING[3..] && OPENING[3..] == [OPENING[3]] + OPENING[4..];
    assert OPENING[4..] == [OPENING[4]] + [];
    Prepared(a, b);
    Requested(b, c);
    Issued(c, d);
    Activated(d);
    NothingLeft(ACTIVE);
  }

  lemma NothingLeft(db: Db)
    ensures Run(db, []) == db
  {
  }

  lemma StepIs(db: Db, op: Op, after: Db)
    requires Transact(db, op, db.now, db.now).db == after && after.now == db.now
    ensures Step(db, op, AT_ONCE).db == after
  {
    hide Transact;
  }

  lemma Prepared(a: Db, b: Db)
    requires a == Fresh(0).(accounts := map[1 := false]) && b == a.(enabled := true)
    ensures Step(Fresh(0), OpSetAccount(1, false), AT_ONCE).db == a
    ensures Step(a, OpConfigure(ModeAutomatic), AT_ONCE).db == b
  {
    hide Step, Request, Issue, Enroll, Rotate, Revoke, Activate, Publish, Withdraw, Decide, Startup, InvalidateSessions;
    StepIs(Fresh(0), OpSetAccount(1, false), a);
    StepIs(a, OpConfigure(ModeAutomatic), b);
  }

  lemma Requested(b: Db, c: Db)
    requires b == Fresh(0).(accounts := map[1 := false], enabled := true) && c == b.(auths := map[1 := Approved])
    ensures Step(b, REQUEST, AT_ONCE).db == c
  {
    hide Step, Issue, Enroll, Rotate, Revoke, Activate, Publish, Withdraw, Decide, Configure, Startup;
    StepIs(b, REQUEST, c);
  }

  lemma Issued(c: Db, d: Db)
    requires c == Fresh(0).(accounts := map[1 := false], enabled := true, auths := map[1 := Approved])
    requires d == c.(identities := map[2 := Identity(1, 1, 0, 0, None)], keys := map[3 := Key(2, 30, 1, 0, None)])
    ensures Step(c, ISSUE, AT_ONCE).db == d
  {
    hide Step, Request, Enroll, Rotate, Revoke, Activate, Publish, Withdraw, Decide, Configure, Startup;
    assert |KeysSince(c, 1, 0 - HOUR)| == 0 && |Owned(c, 1)| == 0 by {
      assert KeysSince(c, 1, 0 - HOUR) == {} && Owned(c, 1) == {};
    }
    hide KeysSince, Owned;
    assert Issue(c, 1, true, 2, 3, 30, SETTINGS, true, 0, 0).db == d;
    hide Issue;
    StepIs(c, ISSUE, d);
  }

  lemma Activated(d: Db)
    requires d == Db(0, true, ModeAutomatic, map[1 := false], map[1 := Approved],
                     map[2 := Identity(1, 1, 0, 0, None)], map[3 := Key(2, 30, 1, 0, None)], map[], map[])
    ensures Step(d, ACTIVATE, AT_ONCE).db == ACTIVE
  {
    hide Step, Request, Issue, Enroll, Rotate, Revoke, Publish, Withdraw, Decide, Configure, Startup;
    assert |SessionsSince(d, 1, 0 - MINUTE)| == 0 by {
      assert SessionsSince(d, 1, 0 - MINUTE) == {};
    }
    assert RevokeSessions(d.sessions, SessionsOf(d, {2}), 0) == map[];
    assert d.appearances - {2} == map[];
    hide SessionsSince, RevokeSessions, SessionsOf;
    assert Activate(d, 1, Some(OfflineKey(3, 30)), 5, 0, 4, 40, SETTINGS, true, 0, 0).db == ACTIVE;
    hide Activate;
    StepIs(d, ACTIVATE, ACTIVE);
  }

  /** At the first reading the session is live, at the second it has lapsed, and the publish leaves it live. */
  lemma LapsesAndLives()
    ensures Run(Fresh(0), OPENING) == ACTIVE
    ensures var after := Step(ACTIVE, PUBLISH, LATE);
            && !Ended(ACTIVE, 4) && ACTIVE.now + LATE.first < ACTIVE.sessions[4].expiresAt == after.db.now
            && after.reply == Ok(2) && !Ended(after.db, 4) && 4 in after.db.sessions
               && after.db.sessions[4].expiresAt == 20_000
  {
    hide Run, Request, Issue, Enroll, Rotate, Revoke, Activate, Withdraw, Decide, Configure, Startup;
    Opened();
    assert Authorize(ACTIVE, 1, 4, 40, 9_999).None?;
  }
}
