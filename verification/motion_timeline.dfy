/**
 The motion timeline of one entity in one world epoch: a revision under compare-and-set
 and a lease that its publisher extends. A request brings the clock reading it took before
 its turn came, so readings arrive in any order.
 */
module MotionTimeline {
  import opened Outcomes

  type Account = nat

  const LEASE_MS := 60_000
  const MAX_REVISION := 9_007_199_254_740_991

  datatype Motion = Motion(event: nat, animation: nat, started: nat)

  datatype Update = Update(binding: nat, appearance: nat, motion: Motion)

  datatype Row = Row(publisher: Account, update: Option<Update>, revision: nat, expires: nat, event: nat, started: nat)

  /** `current` tells whether the epoch still is its scope's. */
  datatype Timeline = Timeline(row: Option<Row>, current: bool)

  datatype Error = NotFound | AccessDenied | RevisionConflict | IdempotencyConflict | Invalid | Refused

  datatype Outcome = Outcome(timeline: Timeline, reply: Result<nat, Error>)

  function Revision(t: Timeline): nat {
    if t.row.Some? then t.row.value.revision else 0
  }

  /** What the stored row says about a publication. */
  function Verdict(row: Row, account: Account, update: Update, time: nat): Option<Error> {
    var motion := update.motion;
    if row.publisher != account && row.expires > time then Some(RevisionConflict)
    else if row.event == motion.event && (row.expires <= time || row.started != motion.started) then
      Some(IdempotencyConflict)
    else if row.update.None? then None
    else
      var previous := row.update.value;
      if previous.motion.event == motion.event
         && (previous.motion.animation != motion.animation || previous.motion.started != motion.started)
      then Some(IdempotencyConflict)
      else if previous.binding == update.binding && previous.appearance == update.appearance
              && previous.motion.started > motion.started
      then Some(RevisionConflict)
      else None
  }

  /**
   `admitted` stands for validation, the display context, the authorized resource and the
   rate limit; the context requires the epoch to be current.
   */
  function Publish(t: Timeline, account: Account, update: Update, expected: nat, admitted: bool, time: nat): Outcome {
    if !admitted || !t.current then Outcome(t, Err(Refused))
    else if Revision(t) != expected then Outcome(t, Err(RevisionConflict))
    else
      var verdict := if t.row.Some? then Verdict(t.row.value, account, update, time) else None;
      if verdict.Some? then Outcome(t, Err(verdict.value))
      else
        var next := Revision(t) + 1;
        var motion := update.motion;
        var row := Row(account, Some(update), next, time + LEASE_MS, motion.event, motion.started);
        Outcome(t.(row := Some(row)), Ok(next))
  }

  function Withdraw(t: Timeline, account: Account, expected: nat): Outcome {
    if expected >= MAX_REVISION then Outcome(t, Err(Invalid))
    else if t.row.None? then Outcome(t, Err(NotFound))
    else
      var row := t.row.value;
      if row.publisher != account then Outcome(t, Err(AccessDenied))
      else if row.revision != expected then Outcome(t, Err(RevisionConflict))
      else
        var next := row.revision + 1;
        Outcome(t.(row := Some(row.(update := None, expires := 0, revision := next))), Ok(next))
  }

  /** Cleanup empties expired rows and deletes the rows of past epochs. */
  function Cleanup(t: Timeline, time: nat): Timeline {
    if !t.current then t.(row := None)
    else if t.row.Some? && t.row.value.expires <= time then t.(row := Some(t.row.value.(update := None)))
    else t
  }

  /**
   After cleanup no payload is left whose lease was over at its reading, and no row of a past
   epoch; live payloads, and what a row remembers of its event, stay.
   */
  lemma CleanupExactly(t: Timeline, time: nat)
    ensures var after := Cleanup(t, time);
            && after.current == t.current && (after.row.Some? <==> t.row.Some? && t.current)
            && (after.row.Some? ==>
                  && after.row.value == t.row.value.(update := after.row.value.update)
                  && (after.row.value.expires <= time ==> after.row.value.update.None?)
                  && (after.row.value.expires > time ==> after.row == t.row))
  {
  }

  /** A step with the reading it brings, which need not be the latest. */
  datatype Op =
    | OpPublish(account: Account, update: Update, expected: nat, admitted: bool, time: nat)
    | OpWithdraw(account: Account, expected: nat)
    | OpCleanup(time: nat)
    | OpRotate

  function Step(t: Timeline, op: Op): Outcome {
    match op
    case OpPublish(account, update, expected, admitted, time) => Publish(t, account, update, expected, admitted, time)
    case OpWithdraw(account, expected) => Withdraw(t, account, expected)
    case OpCleanup(time) => Outcome(Cleanup(t, time), Err(Refused))
    case OpRotate => Outcome(t.(current := false), Err(Refused))
  }

  predicate Accepted(t: Timeline, op: Op) {
    Step(t, op).reply.Ok?
  }

  predicate AcceptedPublish(t: Timeline, op: Op) {
    op.OpPublish? && Accepted(t, op)
  }

  function Run(t: Timeline, ops: seq<Op>): Timeline
    decreases |ops|
  {
    if ops == [] then t else Run(Step(t, ops[0]).timeline, ops[1..])
  }

  /** A stored payload is what the row's columns say. */
  predicate Coherent(t: Timeline) {
    t.row.Some? && t.row.value.update.Some? ==>
      var motion := t.row.value.update.value.motion;
      motion.event == t.row.value.event && motion.started == t.row.value.started
  }

  lemma StepKeepsCoherent(t: Timeline, op: Op)
    requires Coherent(t)
    ensures Coherent(Step(t, op).timeline)
  {
  }

  lemma {:induction false} RunKeepsCoherent(t: Timeline, ops: seq<Op>)
    requires Coherent(t)
    ensures Coherent(Run(t, ops))
    decreases |ops|
  {
    hide Coherent, Step;
    if ops != [] {
      StepKeepsCoherent(t, ops[0]);
      RunKeepsCoherent(Step(t, ops[0]).timeline, ops[1..]);
    }
  }

  lemma {:induction false} CurrentBefore(t: Timeline, ops: seq<Op>)
    requires Run(t, ops).current
    ensures t.current
    decreases |ops|
  {
    if ops != [] {
      CurrentBefore(Step(t, ops[0]).timeline, ops[1..]);
    }
  }

  // ----- the revision -----

  function AcceptedCount(t: Timeline, ops: seq<Op>): nat
    decreases |ops|
  {
    if ops == [] then 0
    else (if Accepted(t, ops[0]) then 1 else 0) + AcceptedCount(Step(t, ops[0]).timeline, ops[1..])
  }

  /** While the epoch is current, the revision counts the accepted writes: each adds one, and nothing resets it. */
  lemma {:induction false} RevisionCountsWrites(t: Timeline, ops: seq<Op>)
    requires Run(t, ops).current
    ensures t.current && Revision(Run(t, ops)) == Revision(t) + AcceptedCount(t, ops)
    decreases |ops|
  {
    if ops != [] {
      var next := Step(t, ops[0]).timeline;
      RevisionCountsWrites(next, ops[1..]);
      StepRevision(t, ops[0]);
    }
  }

  lemma StepRevision(t: Timeline, op: Op)
    requires Step(t, op).timeline.current
    ensures t.current && Revision(Step(t, op).timeline) == Revision(t) + (if Accepted(t, op) then 1 else 0)
  {
  }

  // ----- the lease -----

  /** Only its publisher writes a row, until a publication brings a reading at which its lease is over. */
  lemma LiveLeaseExcludes(t: Timeline, op: Op)
    requires t.row.Some? && Accepted(t, op) && (op.OpPublish? ==> op.time < t.row.value.expires)
    ensures (op.OpPublish? || op.OpWithdraw?) && op.account == t.row.value.publisher
  {
  }

  /**
   The publication goes on with the row's event: same publisher and start, the lease live at
   its reading and, while the payload is there, the same animation.
   */
  predicate Continues(row: Row, account: Account, update: Update, time: nat) {
    && time < row.expires
    && account == row.publisher
    && update.motion.event == row.event
    && update.motion.started == row.started
    && (row.update.Some? ==> update.motion == row.update.value.motion)
  }

  /** A publication that repeats the row's event is accepted, at any reading, exactly when it continues it. */
  lemma SameEventExactly(t: Timeline, account: Account, update: Update, expected: nat, time: nat)
    requires Coherent(t) && t.row.Some? && t.row.value.event == update.motion.event
    requires t.current && expected == t.row.value.revision
    ensures Publish(t, account, update, expected, true, time).reply.Ok?
       <==> Continues(t.row.value, account, update, time)
  {
  }

  /** No accepted publication in the run starts another event. */
  predicate NoOther(t: Timeline, ops: seq<Op>, event: nat)
    decreases |ops|
  {
    ops == [] || ((AcceptedPublish(t, ops[0]) ==> ops[0].update.motion.event == event)
                  && NoOther(Step(t, ops[0]).timeline, ops[1..], event))
  }

  predicate NoPublish(t: Timeline, ops: seq<Op>)
    decreases |ops|
  {
    ops == [] || (!AcceptedPublish(t, ops[0]) && NoPublish(Step(t, ops[0]).timeline, ops[1..]))
  }

  /** Every publication of the event brings a reading at which the lease was over. */
  predicate Late(ops: seq<Op>, event: nat, expires: nat) {
    forall op | op in ops :: op.OpPublish? && op.update.motion.event == event ==> expires <= op.time
  }

  /** The row holds the event, under a lease that ends no later. */
  predicate Holds(t: Timeline, event: nat, expires: nat) {
    t.row.Some? && t.row.value.event == event && t.row.value.expires <= expires
  }

  /** Publications that come after its lease do not continue an event: the next accepted one starts another. */
  lemma {:induction false} EndedNotContinued(t: Timeline, ops: seq<Op>, event: nat, expires: nat)
    requires Holds(t, event, expires) && Late(ops, event, expires)
    requires Run(t, ops).current && NoOther(t, ops, event)
    ensures NoPublish(t, ops) && Holds(Run(t, ops), event, expires)
    decreases |ops|
  {
    if ops != [] {
      var next := Step(t, ops[0]).timeline;
      CurrentBefore(next, ops[1..]);
      assert ops[0] in ops;
      EndedStep(t, ops[0], event, expires);
      EndedNotContinued(next, ops[1..], event, expires);
    }
  }

  lemma EndedStep(t: Timeline, op: Op, event: nat, expires: nat)
    requires Holds(t, event, expires) && Step(t, op).timeline.current
    requires op.OpPublish? && op.update.motion.event == event ==> expires <= op.time
    requires AcceptedPublish(t, op) ==> op.update.motion.event == event
    ensures !AcceptedPublish(t, op) && Holds(Step(t, op).timeline, event, expires)
  {
  }

  /** After an accepted withdrawal no run publishes the withdrawn event again before another one, at any reading. */
  lemma WithdrawnNotContinued(t: Timeline, op: Op, ops: seq<Op>)
    requires op.OpWithdraw? && Accepted(t, op)
    requires var next := Step(t, op).timeline; Run(next, ops).current && NoOther(next, ops, t.row.value.event)
    ensures NoPublish(Step(t, op).timeline, ops)
  {
    EndedNotContinued(Step(t, op).timeline, ops, t.row.value.event, 0);
  }

  // ----- when an event returns -----

  /**
   What a publication needs besides its event: admission, the revision, the lease and, for
   one binding and appearance, no earlier start.
   */
  predicate Fits(t: Timeline, account: Account, update: Update, expected: nat, admitted: bool, time: nat) {
    && admitted && t.current && expected == Revision(t)
    && (t.row.Some? ==>
          var row := t.row.value;
          && (row.publisher == account || row.expires <= time)
          && (row.update.Some? ==>
                var previous := row.update.value;
                previous.binding == update.binding && previous.appearance == update.appearance ==>
                  previous.motion.started <= update.motion.started))
  }

  /** A publication of another event than the row's is accepted exactly when it fits, whatever ended before. */
  lemma OtherEventExactly(
      t: Timeline, account: Account, update: Update, expected: nat, admitted: bool, time: nat)
    requires Coherent(t) && (t.row.Some? ==> t.row.value.event != update.motion.event)
    ensures Publish(t, account, update, expected, admitted, time).reply.Ok?
       <==> Fits(t, account, update, expected, admitted, time)
  {
  }

  /** No publication of this event is accepted in the run. */
  predicate NoneOf(t: Timeline, ops: seq<Op>, event: nat)
    decreases |ops|
  {
    ops == [] || ((AcceptedPublish(t, ops[0]) ==> ops[0].update.motion.event != event)
                  && NoneOf(Step(t, ops[0]).timeline, ops[1..], event))
  }

  lemma {:induction false} RowMovedOn(t: Timeline, ops: seq<Op>, event: nat)
    requires Run(t, ops).current && NoneOf(t, ops, event)
    requires (t.row.Some? && t.row.value.event != event) || !NoPublish(t, ops)
    ensures Run(t, ops).row.Some? && Run(t, ops).row.value.event != event
    decreases |ops|
  {
    if ops != [] {
      var next := Step(t, ops[0]).timeline;
      CurrentBefore(next, ops[1..]);
      if (t.row.Some? && t.row.value.event != event) || AcceptedPublish(t, ops[0]) {
        RowMovesOn(t, ops[0], event);
      }
      RowMovedOn(next, ops[1..], event);
    }
  }

  lemma RowMovesOn(t: Timeline, op: Op, event: nat)
    requires Step(t, op).timeline.current && (AcceptedPublish(t, op) ==> op.update.motion.event != event)
    requires (t.row.Some? && t.row.value.event != event) || AcceptedPublish(t, op)
    ensures Step(t, op).timeline.row.Some? && Step(t, op).timeline.row.value.event != event
  {
  }

  /** Without an accepted publication the row keeps its event, and its lease is never prolonged. */
  lemma {:induction false} RowStays(t: Timeline, ops: seq<Op>, event: nat, expires: nat)
    requires Holds(t, event, expires) && Run(t, ops).current && NoPublish(t, ops)
    ensures Holds(Run(t, ops), event, expires)
    decreases |ops|
  {
    if ops != [] {
      var next := Step(t, ops[0]).timeline;
      CurrentBefore(next, ops[1..]);
      assert Holds(next, event, expires);
      RowStays(next, ops[1..], event, expires);
    }
  }

  /**
   When the row's event comes back: a fitting publication of it, the next one of that event,
   is accepted exactly when another event has been published in between or it continues the
   row as the run left it. With a reading at which the lease was over only the first remains.
   */
  lemma ReturnsExactly(t: Timeline, ops: seq<Op>, event: nat, op: Op)
    requires Coherent(t) && t.row.Some? && t.row.value.event == event
    requires Run(t, ops).current && NoneOf(t, ops, event)
    requires op.OpPublish? && op.update.motion.event == event
    requires Fits(Run(t, ops), op.account, op.update, op.expected, op.admitted, op.time)
    ensures Run(t, ops).row.Some?
    ensures Accepted(Run(t, ops), op)
       <==> !NoPublish(t, ops) || Continues(Run(t, ops).row.value, op.account, op.update, op.time)
    ensures t.row.value.expires <= op.time ==> (Accepted(Run(t, ops), op) <==> !NoPublish(t, ops))
  {
    RunKeepsCoherent(t, ops);
    if NoPublish(t, ops) {
      RowStays(t, ops, event, t.row.value.expires);
      SameEventExactly(Run(t, ops), op.account, op.update, op.expected, op.time);
    } else {
      RowMovedOn(t, ops, event);
      OtherEventExactly(Run(t, ops), op.account, op.update, op.expected, op.admitted, op.time);
    }
  }

  // ----- one event, one animation -----

  /** Every accepted write in the run publishes this event. */
  predicate AllOf(t: Timeline, ops: seq<Op>, event: nat)
    decreases |ops|
  {
    ops == [] || ((Accepted(t, ops[0]) ==> ops[0].OpPublish? && ops[0].update.motion.event == event)
                  && AllOf(Step(t, ops[0]).timeline, ops[1..], event))
  }

  /** Every accepted publication comes from this account and carries this start. */
  predicate AllBy(t: Timeline, ops: seq<Op>, account: Account, started: nat)
    decreases |ops|
  {
    ops == [] || ((AcceptedPublish(t, ops[0]) ==>
                     ops[0].account == account && ops[0].update.motion.started == started)
                  && AllBy(Step(t, ops[0]).timeline, ops[1..], account, started))
  }

  /** Every accepted publication shows this animation. */
  predicate AllShow(t: Timeline, ops: seq<Op>, animation: nat)
    decreases |ops|
  {
    ops == [] || ((AcceptedPublish(t, ops[0]) ==> ops[0].update.motion.animation == animation)
                  && AllShow(Step(t, ops[0]).timeline, ops[1..], animation))
  }

  /** Those that find the payload cleared do. */
  predicate RefillsShow(t: Timeline, ops: seq<Op>, animation: nat)
    decreases |ops|
  {
    ops == [] || ((AcceptedPublish(t, ops[0]) && t.row.Some? && t.row.value.update.None? ==>
                     ops[0].update.motion.animation == animation)
                  && RefillsShow(Step(t, ops[0]).timeline, ops[1..], animation))
  }

  /** The row is this account's, for this event and start, and shows the animation or nothing. */
  predicate Showing(t: Timeline, account: Account, motion: Motion) {
    && t.row.Some?
    && t.row.value.publisher == account && t.row.value.event == motion.event && t.row.value.started == motion.started
    && (t.row.value.update.Some? ==> t.row.value.update.value.motion == motion)
  }

  /**
   Consecutive accepted publications of one event, from the first on, have one publisher and
   one start. They show one animation exactly when those that find the payload cleared do.
   */
  lemma EventKeepsAnimation(t: Timeline, first: Op, ops: seq<Op>)
    requires AcceptedPublish(t, first)
    requires var next := Step(t, first).timeline; Run(next, ops).current && AllOf(next, ops, first.update.motion.event)
    ensures AllBy(Step(t, first).timeline, ops, first.account, first.update.motion.started)
    ensures AllShow(Step(t, first).timeline, ops, first.update.motion.animation)
       <==> RefillsShow(Step(t, first).timeline, ops, first.update.motion.animation)
  {
    var next := Step(t, first).timeline;
    KeepsPublisher(next, ops, first.account, first.update.motion);
    if RefillsShow(next, ops, first.update.motion.animation) {
      KeepsAnimation(next, ops, first.account, first.update.motion);
    } else if AllShow(next, ops, first.update.motion.animation) {
      ShowIncludesRefills(next, ops, first.update.motion.animation);
    }
  }

  lemma {:induction false} KeepsPublisher(t: Timeline, ops: seq<Op>, account: Account, motion: Motion)
    requires Coherent(t) && t.row.Some? && t.row.value.publisher == account
    requires t.row.value.event == motion.event && t.row.value.started == motion.started
    requires Run(t, ops).current && AllOf(t, ops, motion.event)
    ensures AllBy(t, ops, account, motion.started)
    decreases |ops|
  {
    if ops != [] {
      var next := Step(t, ops[0]).timeline;
      CurrentBefore(next, ops[1..]);
      StepKeepsCoherent(t, ops[0]);
      assert next.row.Some? && next.row.value.publisher == account;
      KeepsPublisher(next, ops[1..], account, motion);
    }
  }

  lemma {:induction false} KeepsAnimation(t: Timeline, ops: seq<Op>, account: Account, motion: Motion)
    requires Showing(t, account, motion) && Run(t, ops).current && AllOf(t, ops, motion.event)
    requires RefillsShow(t, ops, motion.animation)
    ensures AllShow(t, ops, motion.animation)
    decreases |ops|
  {
    if ops != [] {
      var next := Step(t, ops[0]).timeline;
      CurrentBefore(next, ops[1..]);
      assert Showing(next, account, motion);
      KeepsAnimation(next, ops[1..], account, motion);
    }
  }

  lemma {:induction false} ShowIncludesRefills(t: Timeline, ops: seq<Op>, animation: nat)
    requires AllShow(t, ops, animation)
    ensures RefillsShow(t, ops, animation)
    decreases |ops|
  {
    if ops != [] {
      ShowIncludesRefills(Step(t, ops[0]).timeline, ops[1..], animation);
    }
  }

  /** No publication in the run brings an older reading than a cleanup before it. */
  predicate AfterCleanup(ops: seq<Op>, floor: nat)
    decreases |ops|
  {
    ops == [] ||
    match ops[0]
    case OpPublish(_, _, _, _, time) => floor <= time && AfterCleanup(ops[1..], floor)
    case OpCleanup(time) => AfterCleanup(ops[1..], if floor < time then time else floor)
    case OpWithdraw(_, _) => AfterCleanup(ops[1..], floor)
    case OpRotate => AfterCleanup(ops[1..], floor)
  }

  /** When no publication brings an older reading than a cleanup before it, one event shows one animation. */
  lemma InOrderKeepsAnimation(t: Timeline, first: Op, ops: seq<Op>)
    requires AcceptedPublish(t, first) && AfterCleanup(ops, 0)
    requires var next := Step(t, first).timeline; Run(next, ops).current && AllOf(next, ops, first.update.motion.event)
    ensures AllShow(Step(t, first).timeline, ops, first.update.motion.animation)
  {
    var next := Step(t, first).timeline;
    NothingRefilled(next, ops, first.update.motion.event, first.update.motion.animation, 0);
    EventKeepsAnimation(t, first, ops);
  }

  lemma {:induction false} NothingRefilled(t: Timeline, ops: seq<Op>, event: nat, animation: nat, floor: nat)
    requires t.row.Some? && t.row.value.event == event && (t.row.value.update.None? ==> t.row.value.expires <= floor)
    requires Run(t, ops).current && AllOf(t, ops, event) && AfterCleanup(ops, floor)
    ensures RefillsShow(t, ops, animation)
    decreases |ops|
  {
    if ops != [] {
      var next := Step(t, ops[0]).timeline;
      CurrentBefore(next, ops[1..]);
      var time := if ops[0].OpCleanup? && floor < ops[0].time then ops[0].time else floor;
      assert next.row.Some? && next.row.value.event == event;
      NothingRefilled(next, ops[1..], event, animation, time);
    }
  }

  // ----- two runs -----

  /**
   Only the last event is remembered: after another event has been published, a lapsed
   one is accepted again.
   */
  lemma LapsedEventReturnsAfterAnother()
    ensures var again := OpPublish(7, Update(1, 1, Motion(1, 5, 100)), 2, true, LEASE_MS);
            var ops := [OpPublish(7, Update(1, 1, Motion(1, 5, 100)), 0, true, 0),
                        OpPublish(7, Update(1, 1, Motion(2, 5, 100)), 1, true, LEASE_MS)];
            Step(Run(Timeline(None, true), ops), again).reply == Ok(3)
  {
    var first := OpPublish(7, Update(1, 1, Motion(1, 5, 100)), 0, true, 0);
    var second := OpPublish(7, Update(1, 1, Motion(2, 5, 100)), 1, true, LEASE_MS);
    RunOfTwo(Timeline(None, true), first, second);
  }

  /**
   A reading taken before the lapse and brought after cleanup has seen it continues the
   lapsed event, under another animation.
   */
  lemma LateReadingContinues()
    ensures var late := OpPublish(7, Update(1, 1, Motion(1, 6, 100)), 1, true, LEASE_MS - 1);
            var ops := [OpPublish(7, Update(1, 1, Motion(1, 5, 100)), 0, true, 0), OpCleanup(LEASE_MS)];
            var lapsed := Run(Timeline(None, true), ops);
            && lapsed.row.Some? && lapsed.row.value.update.None? && lapsed.row.value.event == 1
            && Step(lapsed, late).reply == Ok(2)
            && Step(lapsed, late.(time := LEASE_MS)).reply == Err(IdempotencyConflict)
  {
    var first := OpPublish(7, Update(1, 1, Motion(1, 5, 100)), 0, true, 0);
    RunOfTwo(Timeline(None, true), first, OpCleanup(LEASE_MS));
  }

  lemma RunOfTwo(t: Timeline, first: Op, second: Op)
    ensures Run(t, [first, second]) == Step(Step(t, first).timeline, second).timeline
  {
    assert [first, second][1..] == [second];
    assert Run(Step(t, first).timeline, [second]) == Run(Step(Step(t, first).timeline, second).timeline, []);
  }

  // ----- the stored row -----

  class Table {
    var row: Option<Row>
    var current: bool

    function Contents(): Timeline
      reads this
    {
      Timeline(row, current)
    }

    constructor (current: bool)
      ensures Contents() == Timeline(None, current)
    {
      row, this.current := None, current;
    }

    /** Publishes under the compare-and-set and the lease; `time` is the reading the request brought. */
    method PublishEntityMotion(account: Account, update: Update, expected: nat, admitted: bool, time: nat)
      returns (r: Result<nat, Error>)
      requires Coherent(Contents())
      modifies this`row
      ensures Coherent(Contents())
      ensures Outcome(Contents(), r) == Publish(old(Contents()), account, update, expected, admitted, time)
      ensures r.Err? ==> row == old(row)
      ensures r.Ok? ==> r.value == expected + 1 == old(Revision(Contents())) + 1 == Revision(Contents())
      ensures r.Ok? ==> row.value.publisher == account && row.value.update == Some(update)
      ensures r.Ok? ==> row.value.expires == time + 60_000
      ensures r.Ok? && old(row).Some? && time < old(row).value.expires ==> account == old(row).value.publisher
      ensures old(row).Some? && old(row).value.event == update.motion.event ==>
                (r.Ok? <==> admitted && current && expected == old(row).value.revision
                            && Continues(old(row).value, account, update, time))
      ensures (old(row).Some? ==> old(row).value.event != update.motion.event) ==>
                (r.Ok? <==> Fits(old(Contents()), account, update, expected, admitted, time))
    {
      if !admitted || !current {
        return Err(Refused);
      }
      var revision := if row.Some? then row.value.revision else 0;
      if revision != expected {
        return Err(RevisionConflict);
      }
      if row.Some? {
        var stored := row.value;
        if stored.publisher != account && stored.expires > time {
          return Err(RevisionConflict);
        }
        if stored.event == update.motion.event
           && (stored.expires <= time || stored.started != update.motion.started) {
          return Err(IdempotencyConflict);
        }
        if stored.update.Some? {
          var previous := stored.update.value;
          if previous.motion.event == update.motion.event
             && (previous.motion.animation != update.motion.animation
                 || previous.motion.started != update.motion.started) {
            return Err(IdempotencyConflict);
          }
          if previous.binding == update.binding && previous.appearance == update.appearance
             && previous.motion.started > update.motion.started {
            return Err(RevisionConflict);
          }
        }
      }
      var next := revision + 1;
      row := Some(Row(account, Some(update), next, time + LEASE_MS, update.motion.event, update.motion.started));
      return Ok(next);
    }

    /** Withdraws the row of its own publisher; its event counts as ended from then on. */
    method WithdrawEntityMotion(account: Account, expected: nat) returns (r: Result<nat, Error>)
      requires Coherent(Contents())
      modifies this`row
      ensures Coherent(Contents()) && Outcome(Contents(), r) == Withdraw(old(Contents()), account, expected)
      ensures r.Err? ==> row == old(row)
      ensures r.Ok? <==> expected < MAX_REVISION && old(row).Some?
                         && old(row).value.publisher == account && old(row).value.revision == expected
      ensures r.Ok? ==> r.value == expected + 1 == Revision(Contents())
      ensures r.Ok? ==> row == Some(old(row).value.(update := None, expires := 0, revision := expected + 1))
      ensures r.Ok? ==> Holds(Contents(), old(row).value.event, 0)
      ensures r.Ok? ==> forall a, update: Update, n, admitted, time | update.motion.event == old(row).value.event ::
                Publish(Contents(), a, update, n, admitted, time).reply.Err?
    {
      if expected >= MAX_REVISION {
        return Err(Invalid);
      }
      if row.None? {
        return Err(NotFound);
      }
      var stored := row.value;
      if stored.publisher != account {
        return Err(AccessDenied);
      }
      if stored.revision != expected {
        return Err(RevisionConflict);
      }
      row := Some(stored.(update := None, expires := 0, revision := stored.revision + 1));
      return Ok(stored.revision + 1);
    }
  }
}
