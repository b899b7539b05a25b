/**
 The resizable, pausable concurrency limiter: a lock-protected triple of counters
 and a broadcast notification. Callers register for the notification, then look
 at the counters, then sleep; a change of the counters notifies only after the
 lock has been released.
 */
module ConcurrencyLimiter {
  import opened Outcomes

  type Pid = nat

  datatype Purpose = ToAcquire | ToSeeIdle

  /** Where a caller of `acquire` or `idle` stands in its loop. */
  datatype Phase = Looping | Registered | Asleep | Holding | Finished

  datatype Caller = Caller(purpose: Purpose, phase: Phase, notified: bool)

  /**
   `active`, `limit` and `pauses` are the triple under the lock. `pending` counts
   changes whose lock has been released and whose notification is still to come.
   `tokens` are the live `Pause` objects.
   */
  datatype State = State(
    active: int,
    limit: nat,
    pauses: int,
    pending: nat,
    callers: map<Pid, Caller>,
    tokens: set<nat>)

  datatype Step =
    | Arrive(pid: Pid, purpose: Purpose)
    | Register(pid: Pid)
    | Check(pid: Pid)
    | Wake(pid: Pid)
    | Cancel(pid: Pid)
    | Release(pid: Pid)
    | Pause(token: nat)
    | Unpause(token: nat)
    | SetLimit(value: nat)
    | Notify

  predicate Admits(s: State) {
    s.pauses == 0 && (s.limit == 0 || s.active < s.limit)
  }

  /** What makes a caller's check succeed. */
  predicate Ready(s: State, purpose: Purpose) {
    match purpose
    case ToAcquire => Admits(s)
    case ToSeeIdle => s.active == 0
  }

  predicate In(s: State, pid: Pid, phase: Phase) {
    pid in s.callers && s.callers[pid].phase == phase
  }

  predicate Enabled(s: State, step: Step) {
    match step
    case Arrive(pid, _) => pid !in s.callers
    case Register(pid) => In(s, pid, Looping)
    case Check(pid) => In(s, pid, Registered)
    case Wake(pid) => In(s, pid, Asleep) && s.callers[pid].notified
    case Cancel(pid) => In(s, pid, Asleep)
    case Release(pid) => In(s, pid, Holding)
    case Pause(token) => token !in s.tokens
    case Unpause(token) => token in s.tokens
    case SetLimit(_) => true
    case Notify => s.pending > 0
  }

  function Moved(s: State, pid: Pid, phase: Phase): State
    requires pid in s.callers
  {
    s.(callers := s.callers[pid := s.callers[pid].(phase := phase)])
  }

  /** `notify_waiters` reaches everyone registered at that moment, awake or asleep. */
  function Woken(callers: map<Pid, Caller>): map<Pid, Caller> {
    map p | p in callers ::
      if callers[p].phase == Registered || callers[p].phase == Asleep then callers[p].(notified := true) else callers[p]
  }

  function Next(s: State, step: Step): State
    requires Enabled(s, step)
  {
    match step
    case Arrive(pid, purpose) => s.(callers := s.callers[pid := Caller(purpose, Looping, false)])
    case Register(pid) => s.(callers := s.callers[pid := Caller(s.callers[pid].purpose, Registered, false)])
    case Check(pid) =>
      if !Ready(s, s.callers[pid].purpose) then Moved(s, pid, Asleep)
      else if s.callers[pid].purpose == ToSeeIdle then Moved(s, pid, Finished)
      else Moved(s.(active := s.active + 1), pid, Holding)
    case Wake(pid) => Moved(s, pid, Looping)
    case Cancel(pid) => Moved(s, pid, Finished)
    case Release(pid) => Moved(s.(active := s.active - 1, pending := s.pending + 1), pid, Finished)
    case Pause(token) => s.(pauses := s.pauses + 1, tokens := s.tokens + {token})
    case Unpause(token) => s.(pauses := s.pauses - 1, tokens := s.tokens - {token}, pending := s.pending + 1)
    case SetLimit(value) => s.(limit := value, pending := s.pending + 1)
    case Notify => s.(pending := s.pending - 1, callers := Woken(s.callers))
  }

  function Initial(limit: nat): State {
    State(0, limit, 0, 0, map[], {})
  }

  // ----- safety -----

  ghost function Holders(s: State): set<Pid> {
    set p | p in s.callers && s.callers[p].phase == Holding
  }

  /** The counters count the permits and pauses that are alive, so no decrement can underflow. */
  ghost predicate Counted(s: State) {
    s.active == |Holders(s)| && s.pauses == |s.tokens|
  }

  /**
   Nobody sleeps through an opportunity: whoever is asleep, not notified, and
   would succeed, is still owed a notification.
   */
  ghost predicate NoLostWakeup(s: State) {
    forall p | p in s.callers && s.callers[p].phase == Asleep && !s.callers[p].notified &&
               Ready(s, s.callers[p].purpose) :: s.pending > 0
  }

  /** An admission adds one permit holder, a release removes one, and nothing else changes who holds. */
  lemma HoldersAfter(s: State, step: Step)
    requires Enabled(s, step)
    ensures var admitted := && step.Check? && Ready(s, s.callers[step.pid].purpose)
                            && s.callers[step.pid].purpose == ToAcquire;
            Holders(Next(s, step)) ==
            (if admitted then Holders(s) + {step.pid} else if step.Release? then Holders(s) - {step.pid}
             else Holders(s))
  {
  }

  lemma CountedKept(s: State, step: Step)
    requires Counted(s) && Enabled(s, step)
    ensures Counted(Next(s, step))
  {
    HoldersAfter(s, step);
    var after := Next(s, step);
    if step.Release? {
      assert step.pid in Holders(s);
      assert |Holders(after)| == |Holders(s)| - 1;
    } else if step.Check? {
      assert step.pid !in Holders(s);
    } else {
      hide Holders;
    }
  }

  lemma WakeupKept(s: State, step: Step)
    requires Counted(s) && NoLostWakeup(s) && Enabled(s, step)
    ensures NoLostWakeup(Next(s, step))
  {
  }

  function Run(s: State, steps: seq<Step>): Option<State>
    decreases |steps|
  {
    if steps == [] then Some(s)
    else if Enabled(s, steps[0]) then Run(Next(s, steps[0]), steps[1..])
    else None
  }

  /** No interleaving of callers, resizes, pauses and notifications loses a wakeup. */
  lemma {:induction false} NoInterleavingLosesWakeups(s: State, steps: seq<Step>)
    requires Counted(s) && NoLostWakeup(s) && Run(s, steps).Some?
    ensures Counted(Run(s, steps).value) && NoLostWakeup(Run(s, steps).value)
    decreases |steps|
  {
    if steps != [] {
      CountedKept(s, steps[0]);
      WakeupKept(s, steps[0]);
      NoInterleavingLosesWakeups(Next(s, steps[0]), steps[1..]);
    }
  }

  lemma InitialSafe(limit: nat)
    ensures Counted(Initial(limit)) && NoLostWakeup(Initial(limit))
  {
    assert Holders(Initial(limit)) == {};
  }

  // ----- progress -----

  /** The caller's own steps, after one outstanding notification if it still needs it. */
  function WayIn(s: State, pid: Pid): seq<Step>
    requires pid in s.callers
  {
    (if s.callers[pid].notified then [] else [Notify]) + [Wake(pid), Register(pid), Check(pid)]
  }

  lemma RunOne(s: State, step: Step, rest: seq<Step>)
    requires Enabled(s, step)
    ensures Run(s, [step] + rest) == Run(Next(s, step), rest)
  {
    assert ([step] + rest)[1..] == rest;
  }

  /**
   A sleeping caller whose check would succeed gets through within four steps,
   none of which needs a new job, a released permit or a change of limits.
   */
  lemma SleeperGetsThrough(s: State, pid: Pid)
    requires NoLostWakeup(s)
    requires In(s, pid, Asleep) && Ready(s, s.callers[pid].purpose)
    ensures Run(s, WayIn(s, pid)).Some?
    ensures var after := Run(s, WayIn(s, pid)).value;
            pid in after.callers &&
            after.callers[pid].phase == (if s.callers[pid].purpose == ToAcquire then Holding else Finished)
  {
    var woken := if s.callers[pid].notified then s else Next(s, Notify);
    var way := [Wake(pid), Register(pid), Check(pid)];
    if s.callers[pid].notified {
      assert WayIn(s, pid) == way;
    } else {
      assert WayIn(s, pid) == [Notify] + way;
      RunOne(s, Notify, way);
    }
    assert Ready(woken, s.callers[pid].purpose);
    var looping := Next(woken, Wake(pid));
    RunOne(woken, Wake(pid), [Register(pid), Check(pid)]);
    assert [Wake(pid)] + [Register(pid), Check(pid)] == way;
    var registered := Next(looping, Register(pid));
    RunOne(looping, Register(pid), [Check(pid)]);
    assert [Register(pid)] + [Check(pid)] == [Register(pid), Check(pid)];
    RunOne(registered, Check(pid), []);
    assert [Check(pid)] + [] == [Check(pid)];
  }

  /**
   Only a reduction of the limit leaves more jobs running than it allows: an
   admission never does, and no resize touches a running job.
   */
  lemma LimitRespected(s: State, step: Step)
    requires Counted(s) && Enabled(s, step)
    ensures var after := Next(s, step);
            && (after.active > s.active ==> s.pauses == 0 && (after.limit == 0 || after.active <= after.limit))
            && (step.SetLimit? || step.Pause? || step.Unpause? ==> Holders(after) == Holders(s))
  {
  }

  // ----- the object -----

  /** Exact counters and no lost wakeup. */
  ghost predicate Sound(s: State) {
    Counted(s) && NoLostWakeup(s)
  }

  lemma StepSound(s: State, step: Step)
    requires Sound(s) && Enabled(s, step)
    ensures Sound(Next(s, step))
  {
    CountedKept(s, step);
    WakeupKept(s, step);
  }

  /**
   What a look at the counters means: a caller gets through exactly when the limiter
   admits it, or nothing is active; getting through to acquire makes it one more holder
   within the limit, and not getting through leaves it asleep without an opportunity.
   */
  ghost predicate LookedFor(before: State, after: State, pid: Pid, through: bool)
    requires pid in before.callers
  {
    var purpose := before.callers[pid].purpose;
    && (through <==> Ready(before, purpose))
    && after.limit == before.limit && after.pauses == before.pauses && after.tokens == before.tokens
       && after.pending == before.pending
    && after.callers.Keys == before.callers.Keys
    && (forall p | p in before.callers && p != pid :: after.callers[p] == before.callers[p])
    && (through && purpose == ToAcquire ==>
          pid !in Holders(before) && Holders(after) == Holders(before) + {pid}
          && after.pauses == 0 && (after.limit == 0 || after.active <= after.limit))
    && (through && purpose == ToSeeIdle ==> Holders(before) == {} == Holders(after) && In(after, pid, Finished))
    && (!through ==> Holders(after) == Holders(before) && In(after, pid, Asleep) && !Ready(after, purpose))
  }

  lemma CheckMeans(s: State, pid: Pid)
    requires Counted(s) && Enabled(s, Check(pid))
    ensures LookedFor(s, Next(s, Check(pid)), pid, Ready(s, s.callers[pid].purpose))
  {
    HoldersAfter(s, Check(pid));
    CountedKept(s, Check(pid));
    assert pid !in Holders(s);
    hide Holders;
  }

  /** The limiter object; every method is one section under the lock or one notification. */
  class Limiter {
    var active: int
    var limit: nat
    var pauses: int
    var pending: nat
    var callers: map<Pid, Caller>
    var tokens: set<nat>

    function View(): State
      reads this
    {
      State(active, limit, pauses, pending, callers, tokens)
    }

    constructor (limit: nat)
      ensures View() == Initial(limit) && Sound(View())
    {
      this.limit := limit;
      active, pauses, pending, callers, tokens := 0, 0, 0, map[], {};
      new;
      InitialSafe(limit);
    }

    /** A new limit touches no running job, and whoever it lets in is owed a notification. */
    method Resize(value: nat)
      requires Sound(View())
      modifies this
      ensures Sound(View()) && View() == Next(old(View()), SetLimit(value)) && Holders(View()) == Holders(old(View()))
    {
      StepSound(View(), SetLimit(value));
      HoldersAfter(View(), SetLimit(value));
      hide Sound, Holders;
      limit := value;
      pending := pending + 1;
    }

    /** From a pause on nobody is admitted until its token is dropped. */
    method TakePause(token: nat)
      requires Sound(View()) && Enabled(View(), Pause(token))
      modifies this
      ensures Sound(View()) && View() == Next(old(View()), Pause(token)) && Holders(View()) == Holders(old(View()))
      ensures !Admits(View()) && pauses == |tokens|
    {
      StepSound(View(), Pause(token));
      HoldersAfter(View(), Pause(token));
      pauses := pauses + 1;
      tokens := tokens + {token};
      PausedShut(View(), token);
    }

    method DropPause(token: nat)
      requires Sound(View()) && Enabled(View(), Unpause(token))
      modifies this
      ensures Sound(View()) && View() == Next(old(View()), Unpause(token)) && Holders(View()) == Holders(old(View()))
    {
      StepSound(View(), Unpause(token));
      HoldersAfter(View(), Unpause(token));
      hide Sound, Holders;
      pauses := pauses - 1;
      tokens := tokens - {token};
      pending := pending + 1;
    }

    /** A dropped permit leaves one holder less; the decrement cannot underflow. */
    method DropPermit(pid: Pid)
      requires Sound(View()) && Enabled(View(), Release(pid))
      modifies this
      ensures Sound(View()) && View() == Next(old(View()), Release(pid))
      ensures Holders(View()) == Holders(old(View())) - {pid} && active == old(active) - 1 >= 0
    {
      StepSound(View(), Release(pid));
      HoldersAfter(View(), Release(pid));
      ActiveNotNegative(Next(View(), Release(pid)));
      hide Sound, Holders;
      active := active - 1;
      callers := callers[pid := callers[pid].(phase := Finished)];
      pending := pending + 1;
    }

    /** A notification wakes everyone registered at that moment, awake or asleep. */
    method NotifyWaiters()
      requires Sound(View()) && Enabled(View(), Notify)
      modifies this
      ensures Sound(View()) && View() == Next(old(View()), Notify) && Holders(View()) == Holders(old(View()))
      ensures forall p | p in callers && callers[p].phase == Asleep :: callers[p].notified
    {
      StepSound(View(), Notify);
      HoldersAfter(View(), Notify);
      hide Sound, Holders;
      pending := pending - 1;
      callers := Woken(callers);
    }

    /** The look at the counters inside `acquire` and `idle`. */
    method LookAtCounts(pid: Pid) returns (through: bool)
      requires Sound(View()) && Enabled(View(), Check(pid))
      modifies this
      ensures Sound(View()) && LookedFor(old(View()), View(), pid, through)
    {
      StepSound(View(), Check(pid));
      CheckMeans(View(), pid);
      hide Sound, LookedFor;
      var caller := callers[pid];
      if caller.purpose == ToSeeIdle {
        through := active == 0;
        callers := callers[pid := caller.(phase := if through then Finished else Asleep)];
      } else {
        through := pauses == 0 && (limit == 0 || active < limit);
        if through {
          active := active + 1;
        }
        callers := callers[pid := caller.(phase := if through then Holding else Asleep)];
      }
      assert View() == Next(old(View()), Check(pid));
    }
  }

  lemma PausedShut(s: State, token: nat)
    requires Counted(s) && token in s.tokens
    ensures !Admits(s)
  {
  }

  lemma ActiveNotNegative(s: State)
    requires Counted(s)
    ensures s.active >= 0
  {
  }
}
