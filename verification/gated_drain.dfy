/**
 The drain over the limiters themselves. Uploads, workers and the updater register, look,
 sleep and are notified at two `ConcurrencyLimiter` gates. Every step of this system is a
 step of `UpdateDrain` or invisible to it, and every step the drain there needs can be
 brought about here, sleeping callers and pending notifications included.
 */
module GatedDrain {
  import opened Outcomes
  import L = ConcurrencyLimiter
  import D = UpdateDrain

  type Pid = nat

  datatype Side = Uploads | Processing

  /** How far the updater is, with the caller it waits as and the pauses it holds. */
  datatype Updater =
    | Away
    | DrainsUploads(waiter: Pid, uploadPause: nat)
    | DrainsProcessing(waiter: Pid, uploadPause: nat, processingPause: nat)
    | HasDrained(uploadPause: nat, processingPause: nat)

  datatype System = System(
    uploads: L.State, processing: L.State,
    jobs: map<Pid, D.Upload>, workers: map<Pid, D.Worker>, updater: Updater)

  datatype Step =
    | At(side: Side, step: L.Step)
    | ArriveUpload(pid: Pid)
    | StartScan(pid: Pid, worker: Pid)
    | EndScan(pid: Pid)
    | FinishUpload(pid: Pid)
    | CancelUpload(pid: Pid)
    | ArriveWorker(worker: Pid)
    | FinishWorker(worker: Pid)
    | BeginUpdate(waiter: Pid, pause: nat)
    | PauseProcessing(waiter: Pid, pause: nat)
    | SeeDrained
    | EndUpdate

  // ----- where a job stands at its gate -----

  datatype Stage = Waits | Holds | Left

  function UploadStage(u: D.Upload): Stage {
    match u
    case Queued => Waits
    case Receiving => Holds
    case Scanning(_) => Holds
    case Storing => Holds
    case Gone => Left
  }

  function WorkerStage(w: D.Worker): Stage {
    match w
    case Waiting => Waits
    case Decoding => Holds
    case Done => Left
  }

  function PhaseStage(p: L.Phase): Stage {
    match p
    case Looping => Waits
    case Registered => Waits
    case Asleep => Waits
    case Holding => Holds
    case Finished => Left
  }

  function GateOf(c: System, side: Side): L.State {
    if side == Uploads then c.uploads else c.processing
  }

  function Stages(c: System, side: Side): map<Pid, Stage> {
    if side == Uploads then map p | p in c.jobs :: UploadStage(c.jobs[p])
    else map p | p in c.workers :: WorkerStage(c.workers[p])
  }

  predicate Awaits(c: System, side: Side, pid: Pid) {
    || (side == Uploads && c.updater.DrainsUploads? && c.updater.waiter == pid)
    || (side == Processing && c.updater.DrainsProcessing? && c.updater.waiter == pid)
  }

  // ----- steps -----

  /**
   Callers move through their loops, changes are notified, limits are resized, and a waiter
   that gave up is dropped.
   */
  predicate Allowed(c: System, side: Side, step: L.Step) {
    && L.Enabled(GateOf(c, side), step)
    && match step
       case Register(_) => true
       case Check(_) => true
       case Wake(_) => true
       case Notify => true
       case SetLimit(_) => true
       case Cancel(p) => p !in Stages(c, side) && !Awaits(c, side, p)
       case Arrive(_, _) => false
       case Release(_) => false
       case Pause(_) => false
       case Unpause(_) => false
  }

  predicate Enabled(c: System, step: Step) {
    match step
    case At(side, s) => Allowed(c, side, s)
    case ArriveUpload(p) => p !in c.uploads.callers
    case StartScan(p, w) => p in c.jobs && c.jobs[p] == D.Receiving && w !in c.processing.callers
    case EndScan(p) =>
      p in c.jobs && c.jobs[p].Scanning? && c.jobs[p].worker in c.workers && c.workers[c.jobs[p].worker] == D.Done
    case FinishUpload(p) =>
      p in c.jobs && (c.jobs[p] == D.Receiving || c.jobs[p] == D.Storing) && L.In(c.uploads, p, L.Holding)
    case CancelUpload(p) =>
      p in c.jobs && (L.In(c.uploads, p, L.Asleep) || L.In(c.uploads, p, L.Holding))
    case ArriveWorker(w) => w !in c.processing.callers
    case FinishWorker(w) => w in c.workers && L.In(c.processing, w, L.Holding)
    case BeginUpdate(w, t) => c.updater.Away? && w !in c.uploads.callers && t !in c.uploads.tokens
    case PauseProcessing(w, t) =>
      c.updater.DrainsUploads? && L.In(c.uploads, c.updater.waiter, L.Finished)
      && w !in c.processing.callers && t !in c.processing.tokens
    case SeeDrained => c.updater.DrainsProcessing? && L.In(c.processing, c.updater.waiter, L.Finished)
    case EndUpdate =>
      match c.updater
      case Away => false
      case DrainsUploads(_, t) => t in c.uploads.tokens
      case DrainsProcessing(_, t, u) => t in c.uploads.tokens && u in c.processing.tokens
      case HasDrained(t, u) => t in c.uploads.tokens && u in c.processing.tokens
  }

  function Next(c: System, step: Step): System
    requires Enabled(c, step)
  {
    match step
    case At(side, s) =>
      var admitted := s.Check? && s.pid in Stages(c, side) && L.Admits(GateOf(c, side));
      if side == Uploads then
        c.(uploads := L.Next(c.uploads, s), jobs := if admitted then c.jobs[s.pid := D.Receiving] else c.jobs)
      else
        c.(processing := L.Next(c.processing, s),
           workers := if admitted then c.workers[s.pid := D.Decoding] else c.workers)
    case ArriveUpload(p) => c.(uploads := L.Next(c.uploads, L.Arrive(p, L.ToAcquire)), jobs := c.jobs[p := D.Queued])
    case StartScan(p, w) =>
      c.(jobs := c.jobs[p := D.Scanning(w)], workers := c.workers[w := D.Waiting],
         processing := L.Next(c.processing, L.Arrive(w, L.ToAcquire)))
    case EndScan(p) => c.(jobs := c.jobs[p := D.Storing])
    case FinishUpload(p) => c.(uploads := L.Next(c.uploads, L.Release(p)), jobs := c.jobs[p := D.Gone])
    case CancelUpload(p) =>
      c.(uploads := L.Next(c.uploads, if L.In(c.uploads, p, L.Asleep) then L.Cancel(p) else L.Release(p)),
         jobs := c.jobs[p := D.Gone])
    case ArriveWorker(w) =>
      c.(processing := L.Next(c.processing, L.Arrive(w, L.ToAcquire)), workers := c.workers[w := D.Waiting])
    case FinishWorker(w) => c.(processing := L.Next(c.processing, L.Release(w)), workers := c.workers[w := D.Done])
    case BeginUpdate(w, t) =>
      c.(uploads := L.Next(L.Next(c.uploads, L.Pause(t)), L.Arrive(w, L.ToSeeIdle)), updater := DrainsUploads(w, t))
    case PauseProcessing(w, t) =>
      c.(processing := L.Next(L.Next(c.processing, L.Pause(t)), L.Arrive(w, L.ToSeeIdle)),
         updater := DrainsProcessing(w, c.updater.uploadPause, t))
    case SeeDrained => c.(updater := HasDrained(c.updater.uploadPause, c.updater.processingPause))
    case EndUpdate =>
      var open := c.(uploads := L.Next(c.uploads, L.Unpause(c.updater.uploadPause)), updater := Away);
      if c.updater.DrainsUploads? then open
      else open.(processing := L.Next(c.processing, L.Unpause(c.updater.processingPause)))
  }

  function Run(c: System, steps: seq<Step>): Option<System>
    decreases |steps|
  {
    if steps == [] then Some(c)
    else if Enabled(c, steps[0]) then Run(Next(c, steps[0]), steps[1..])
    else None
  }

  function Initial(uploads: nat, processing: nat): System {
    System(L.Initial(uploads), L.Initial(processing), map[], map[], Away)
  }

  // ----- the drain of `UpdateDrain` behind it -----

  function Gate(g: L.State): D.Gate {
    D.Gate(g.active, g.limit, g.pauses)
  }

  function PhaseOf(u: Updater): D.Phase {
    match u
    case Away => D.Serving
    case DrainsUploads(_, _) => D.DrainingUploads
    case DrainsProcessing(_, _, _) => D.DrainingProcessing
    case HasDrained(_, _) => D.Drained
  }

  function Abstract(c: System): D.System {
    D.System(Gate(c.uploads), Gate(c.processing), c.jobs, c.workers, PhaseOf(c.updater))
  }

  /** The drain step that a step of this system is, if it is one. */
  function Shadow(c: System, step: Step): Option<D.Step> {
    match step
    case At(side, s) =>
      if s.SetLimit? then
        Some(if side == Uploads then D.Resize(s.value, c.processing.limit) else D.Resize(c.uploads.limit, s.value))
      else if s.Check? && s.pid in Stages(c, side) && L.Admits(GateOf(c, side)) then
        Some(if side == Uploads then D.AdmitUpload(s.pid) else D.AdmitWorker(s.pid))
      else None
    case ArriveUpload(p) => Some(D.ArriveUpload(p))
    case StartScan(p, w) => Some(D.StartScan(p, w))
    case EndScan(p) => Some(D.EndScan(p))
    case FinishUpload(p) => Some(D.FinishUpload(p))
    case CancelUpload(p) => Some(D.CancelUpload(p))
    case ArriveWorker(w) => Some(D.ArriveWorker(w))
    case FinishWorker(w) => Some(D.FinishWorker(w))
    case BeginUpdate(_, _) => Some(D.BeginUpdate)
    case PauseProcessing(_, _) => Some(D.SeeUploadsIdle)
    case SeeDrained => Some(D.SeeProcessingIdle)
    case EndUpdate => Some(D.EndUpdate)
  }

  // ----- the invariant -----

  /** Jobs stand at the gate where their stage says; every other caller only waits to see the gate idle. */
  ghost predicate Ties(g: L.State, stages: map<Pid, Stage>) {
    && (forall p | p in stages ::
          p in g.callers && g.callers[p].purpose == L.ToAcquire && PhaseStage(g.callers[p].phase) == stages[p])
    && (forall p | p in g.callers && p !in stages :: g.callers[p].purpose == L.ToSeeIdle)
  }

  /** The waiter exists, its pause is held, and it is through only when the gate is empty. */
  ghost predicate Waited(g: L.State, stages: map<Pid, Stage>, waiter: Pid, pause: nat) {
    && waiter in g.callers && waiter !in stages && pause in g.tokens
    && g.callers[waiter].phase != L.Holding && (g.callers[waiter].phase == L.Finished ==> g.active == 0)
  }

  ghost predicate UpdaterSound(c: System) {
    match c.updater
    case Away => true
    case DrainsUploads(w, t) => Waited(c.uploads, Stages(c, Uploads), w, t)
    case DrainsProcessing(w, t, u) => t in c.uploads.tokens && Waited(c.processing, Stages(c, Processing), w, u)
    case HasDrained(t, u) => t in c.uploads.tokens && u in c.processing.tokens
  }

  ghost predicate Safe(c: System) {
    && L.Sound(c.uploads) && L.Sound(c.processing)
    && Ties(c.uploads, Stages(c, Uploads)) && Ties(c.processing, Stages(c, Processing))
    && UpdaterSound(c) && D.Safe(Abstract(c))
  }

  /** The stages after a step at a gate. */
  function StagesAfter(g: L.State, stages: map<Pid, Stage>, step: L.Step): map<Pid, Stage> {
    match step
    case Arrive(p, purpose) => if purpose == L.ToAcquire then stages[p := Waits] else stages
    case Check(p) => if p in stages && L.Admits(g) then stages[p := Holds] else stages
    case Release(p) => stages[p := Left]
    case Cancel(p) => if p in stages then stages[p := Left] else stages
    case Register(_) => stages
    case Wake(_) => stages
    case Pause(_) => stages
    case Unpause(_) => stages
    case SetLimit(_) => stages
    case Notify => stages
  }

  lemma TiesKept(g: L.State, stages: map<Pid, Stage>, step: L.Step)
    requires Ties(g, stages) && L.Enabled(g, step) && (step.Release? ==> step.pid in stages)
    ensures Ties(L.Next(g, step), StagesAfter(g, stages, step))
  {
  }

  /** A pause held by the updater keeps an empty gate empty, and its waiter's answer true. */
  lemma WaitedKept(g: L.State, stages: map<Pid, Stage>, step: L.Step, waiter: Pid, pause: nat)
    requires L.Sound(g) && Ties(g, stages) && Waited(g, stages, waiter, pause) && L.Enabled(g, step)
    requires step != L.Unpause(pause) && step != L.Cancel(waiter) && (step.Release? ==> step.pid in stages)
    ensures Waited(L.Next(g, step), StagesAfter(g, stages, step), waiter, pause)
  {
    L.PausedShut(g, pause);
    if step.Release? {
      assert step.pid in L.Holders(g);
    }
  }

  // ----- a step is a few moves at each gate -----

  function Moves(c: System, step: Step, side: Side): seq<L.Step>
    requires Enabled(c, step)
  {
    match step
    case At(at, s) => if at == side then [s] else []
    case ArriveUpload(p) => if side == Uploads then [L.Arrive(p, L.ToAcquire)] else []
    case StartScan(_, w) => if side == Processing then [L.Arrive(w, L.ToAcquire)] else []
    case EndScan(_) => []
    case FinishUpload(p) => if side == Uploads then [L.Release(p)] else []
    case CancelUpload(p) =>
      if side == Uploads then [if L.In(c.uploads, p, L.Asleep) then L.Cancel(p) else L.Release(p)] else []
    case ArriveWorker(w) => if side == Processing then [L.Arrive(w, L.ToAcquire)] else []
    case FinishWorker(w) => if side == Processing then [L.Release(w)] else []
    case BeginUpdate(w, t) => if side == Uploads then [L.Pause(t), L.Arrive(w, L.ToSeeIdle)] else []
    case PauseProcessing(w, t) => if side == Processing then [L.Pause(t), L.Arrive(w, L.ToSeeIdle)] else []
    case SeeDrained => []
    case EndUpdate =>
      if side == Uploads then [L.Unpause(c.updater.uploadPause)]
      else if c.updater.DrainsUploads? then []
      else [L.Unpause(c.updater.processingPause)]
  }

  function StagesRun(g: L.State, stages: map<Pid, Stage>, moves: seq<L.Step>): map<Pid, Stage>
    requires L.Run(g, moves).Some?
    decreases |moves|
  {
    if moves == [] then stages else StagesRun(L.Next(g, moves[0]), StagesAfter(g, stages, moves[0]), moves[1..])
  }

  lemma OneMove(g: L.State, stages: map<Pid, Stage>, s: L.Step)
    requires L.Enabled(g, s)
    ensures L.Run(g, [s]) == Some(L.Next(g, s)) && StagesRun(g, stages, [s]) == StagesAfter(g, stages, s)
  {
    hide L.Enabled, L.Next, StagesAfter;
    assert [s][1..] == [];
    assert L.Run(L.Next(g, s), []) == Some(L.Next(g, s));
  }

  lemma TwoMoves(g: L.State, stages: map<Pid, Stage>, s: L.Step, r: L.Step)
    requires L.Enabled(g, s) && L.Enabled(L.Next(g, s), r)
    ensures L.Run(g, [s, r]) == Some(L.Next(L.Next(g, s), r))
    ensures StagesRun(g, stages, [s, r]) == StagesAfter(L.Next(g, s), StagesAfter(g, stages, s), r)
  {
    hide L.Enabled, L.Next, StagesAfter;
    assert [s, r][1..] == [r];
    OneMove(L.Next(g, s), StagesAfter(g, stages, s), r);
  }

  lemma NoMove(g: L.State, stages: map<Pid, Stage>)
    ensures L.Run(g, []) == Some(g) && StagesRun(g, stages, []) == stages
  {
  }

  lemma JobStage(c: System, after: System, p: Pid, u: D.Upload)
    requires after.jobs == c.jobs[p := u]
    ensures Stages(after, Uploads) == Stages(c, Uploads)[p := UploadStage(u)]
  {
    hide UploadStage;
  }

  lemma WorkerMoved(c: System, after: System, w: Pid, u: D.Worker)
    requires after.workers == c.workers[w := u]
    ensures Stages(after, Processing) == Stages(c, Processing)[w := WorkerStage(u)]
  {
    hide WorkerStage;
  }

  lemma SameStages(c: System, after: System)
    ensures after.jobs == c.jobs ==> Stages(after, Uploads) == Stages(c, Uploads)
    ensures after.workers == c.workers ==> Stages(after, Processing) == Stages(c, Processing)
  {
  }

  lemma StageKept(stages: map<Pid, Stage>, p: Pid, stage: Stage)
    requires p in stages && stages[p] == stage
    ensures stages[p := stage] == stages
  {
  }

  lemma StageOfJob(c: System, p: Pid)
    ensures p in Stages(c, Uploads) <==> p in c.jobs
    ensures p in c.jobs ==> Stages(c, Uploads)[p] == UploadStage(c.jobs[p])
    ensures p in Stages(c, Processing) <==> p in c.workers
    ensures p in c.workers ==> Stages(c, Processing)[p] == WorkerStage(c.workers[p])
  {
  }

  /** The gates and the stages after a step are those after its moves. */
  ghost predicate MovedTo(c: System, step: Step, side: Side)
    requires Enabled(c, step)
  {
    && L.Run(GateOf(c, side), Moves(c, step, side)) == Some(GateOf(Next(c, step), side))
    && StagesRun(GateOf(c, side), Stages(c, side), Moves(c, step, side)) == Stages(Next(c, step), side)
  }

  lemma AtMoves(c: System, at: Side, s: L.Step, side: Side)
    requires Safe(c) && Enabled(c, At(at, s))
    ensures MovedTo(c, At(at, s), side)
  {
    hide Safe, Stages, L.Next, L.Enabled, Abstract;
    var after := Next(c, At(at, s));
    SameStages(c, after);
    if at == side {
      OneMove(GateOf(c, side), Stages(c, side), s);
      if s.Check? && s.pid in Stages(c, side) && L.Admits(GateOf(c, side)) {
        if side == Uploads {
          JobStage(c, after, s.pid, D.Receiving);
        } else {
          WorkerMoved(c, after, s.pid, D.Decoding);
        }
      }
    } else {
      NoMove(GateOf(c, side), Stages(c, side));
    }
  }

  lemma JobMoves(c: System, step: Step, side: Side)
    requires Enabled(c, step) && !step.At? && !step.BeginUpdate? && !step.PauseProcessing? && !step.EndUpdate?
    requires step.FinishWorker? ==> c.workers[step.worker] == D.Decoding
    ensures MovedTo(c, step, side)
  {
    hide Stages, L.Next, L.Admits, Abstract;
    var after := Next(c, step);
    SameStages(c, after);
    NoMove(GateOf(c, side), Stages(c, side));
    if Moves(c, step, side) != [] {
      OneMove(GateOf(c, side), Stages(c, side), Moves(c, step, side)[0]);
    }
    match step {
      case ArriveUpload(p) => JobStage(c, after, p, D.Queued);
      case StartScan(p, w) =>
        JobStage(c, after, p, D.Scanning(w));
        StageOfJob(c, p);
        StageKept(Stages(c, Uploads), p, Holds);
        WorkerMoved(c, after, w, D.Waiting);
      case EndScan(p) =>
        JobStage(c, after, p, D.Storing);
        StageOfJob(c, p);
        StageKept(Stages(c, Uploads), p, Holds);
      case FinishUpload(p) => JobStage(c, after, p, D.Gone);
      case CancelUpload(p) =>
        JobStage(c, after, p, D.Gone);
        StageOfJob(c, p);
      case ArriveWorker(w) => WorkerMoved(c, after, w, D.Waiting);
      case FinishWorker(w) => WorkerMoved(c, after, w, D.Done);
      case SeeDrained =>
    }
  }

  lemma UpdaterMoves(c: System, step: Step, side: Side)
    requires Enabled(c, step) && (step.BeginUpdate? || step.PauseProcessing? || step.EndUpdate?)
    ensures MovedTo(c, step, side)
  {
    hide Stages, Abstract;
    var after := Next(c, step);
    SameStages(c, after);
    NoMove(GateOf(c, side), Stages(c, side));
    if |Moves(c, step, side)| == 1 {
      OneMove(GateOf(c, side), Stages(c, side), Moves(c, step, side)[0]);
    } else if |Moves(c, step, side)| == 2 {
      TwoMoves(GateOf(c, side), Stages(c, side), Moves(c, step, side)[0], Moves(c, step, side)[1]);
    }
  }

  lemma StepMoves(c: System, step: Step, side: Side)
    requires Safe(c) && Enabled(c, step)
    ensures MovedTo(c, step, side)
  {
    hide MovedTo, Stages, Next;
    match step {
      case At(at, s) => AtMoves(c, at, s, side);
      case BeginUpdate(_, _) => UpdaterMoves(c, step, side);
      case PauseProcessing(_, _) => UpdaterMoves(c, step, side);
      case EndUpdate => UpdaterMoves(c, step, side);
      case FinishWorker(w) =>
        HolderIsDecoding(c, w);
        JobMoves(c, step, side);
      case ArriveUpload(_) => JobMoves(c, step, side);
      case StartScan(_, _) => JobMoves(c, step, side);
      case EndScan(_) => JobMoves(c, step, side);
      case FinishUpload(_) => JobMoves(c, step, side);
      case CancelUpload(_) => JobMoves(c, step, side);
      case ArriveWorker(_) => JobMoves(c, step, side);
      case SeeDrained => JobMoves(c, step, side);
    }
  }

  lemma HolderIsDecoding(c: System, w: Pid)
    requires Safe(c) && w in c.workers && L.In(c.processing, w, L.Holding)
    ensures c.workers[w] == D.Decoding
  {
    hide L.Sound, UpdaterSound, D.Safe;
    StageOfJob(c, w);
  }

  // ----- moves keep a gate sound -----

  ghost predicate Tracked(moves: seq<L.Step>, stages: map<Pid, Stage>) {
    forall m | m in moves && m.Release? :: m.pid in stages
  }

  lemma StagesGrow(g: L.State, stages: map<Pid, Stage>, step: L.Step)
    ensures stages.Keys <= StagesAfter(g, stages, step).Keys
  {
  }

  lemma {:induction false} MovesKeep(g: L.State, stages: map<Pid, Stage>, moves: seq<L.Step>)
    requires L.Sound(g) && Ties(g, stages) && Tracked(moves, stages) && L.Run(g, moves).Some?
    ensures L.Sound(L.Run(g, moves).value) && Ties(L.Run(g, moves).value, StagesRun(g, stages, moves))
    decreases |moves|
  {
    hide L.Sound, Ties, StagesAfter, L.Next, L.Enabled;
    if moves != [] {
      assert moves[0] in moves && forall m | m in moves[1..] :: m in moves;
      L.StepSound(g, moves[0]);
      TiesKept(g, stages, moves[0]);
      StagesGrow(g, stages, moves[0]);
      MovesKeep(L.Next(g, moves[0]), StagesAfter(g, stages, moves[0]), moves[1..]);
    }
  }

  lemma {:induction false} MovesWaited(g: L.State, stages: map<Pid, Stage>, moves: seq<L.Step>, waiter: Pid, pause: nat)
    requires L.Sound(g) && Ties(g, stages) && Tracked(moves, stages) && L.Run(g, moves).Some?
    requires Waited(g, stages, waiter, pause) && L.Unpause(pause) !in moves && L.Cancel(waiter) !in moves
    ensures Waited(L.Run(g, moves).value, StagesRun(g, stages, moves), waiter, pause)
    decreases |moves|
  {
    hide L.Sound, Ties, StagesAfter, L.Next, L.Enabled, Waited;
    if moves != [] {
      assert moves[0] in moves && forall m | m in moves[1..] :: m in moves;
      L.StepSound(g, moves[0]);
      TiesKept(g, stages, moves[0]);
      WaitedKept(g, stages, moves[0], waiter, pause);
      StagesGrow(g, stages, moves[0]);
      MovesWaited(L.Next(g, moves[0]), StagesAfter(g, stages, moves[0]), moves[1..], waiter, pause);
    }
  }

  lemma {:induction false} MovesPaused(g: L.State, moves: seq<L.Step>, pause: nat)
    requires L.Run(g, moves).Some? && pause in g.tokens && L.Unpause(pause) !in moves
    ensures pause in L.Run(g, moves).value.tokens
    decreases |moves|
  {
    if moves != [] {
      assert moves[0] in moves && forall m | m in moves[1..] :: m in moves;
      MovesPaused(L.Next(g, moves[0]), moves[1..], pause);
    }
  }

  lemma StepTracked(c: System, step: Step, side: Side)
    requires Enabled(c, step)
    ensures Tracked(Moves(c, step, side), Stages(c, side))
  {
    hide Stages, L.Enabled;
    if step.FinishUpload? || step.CancelUpload? {
      StageOfJob(c, step.pid);
    } else if step.FinishWorker? {
      StageOfJob(c, step.worker);
    }
  }

  lemma GatesKept(c: System, step: Step, side: Side)
    requires Safe(c) && Enabled(c, step)
    ensures L.Sound(GateOf(Next(c, step), side)) && Ties(GateOf(Next(c, step), side), Stages(Next(c, step), side))
  {
    StepMoves(c, step, side);
    StepTracked(c, step, side);
    hide Enabled, Next, L.Sound, Ties, Stages, UpdaterSound, D.Safe, Moves, StagesRun, L.Run, Tracked;
    MovesKeep(GateOf(c, side), Stages(c, side), Moves(c, step, side));
  }

  // ----- simulation -----

  /** Every step is its shadow in the drain, or invisible there. */
  lemma Simulates(c: System, step: Step)
    requires Safe(c) && Enabled(c, step)
    ensures Shadow(c, step).None? ==> Abstract(Next(c, step)) == Abstract(c)
    ensures Shadow(c, step).Some? ==>
              D.Enabled(Abstract(c), Shadow(c, step).value)
                  && Abstract(Next(c, step)) == D.Next(Abstract(c), Shadow(c, step).value)
  {
    hide L.Sound, D.Safe;
    match step {
      case At(side, s) => SimulatesAt(c, side, s);
      case BeginUpdate(_, _) => SimulatesUpdater(c, step);
      case PauseProcessing(_, _) => SimulatesUpdater(c, step);
      case SeeDrained => SimulatesUpdater(c, step);
      case EndUpdate => SimulatesUpdater(c, step);
      case ArriveUpload(p) => SimulatesJob(c, step, p);
      case StartScan(p, _) => SimulatesJob(c, step, p);
      case EndScan(p) => SimulatesJob(c, step, p);
      case FinishUpload(p) => SimulatesJob(c, step, p);
      case CancelUpload(p) => SimulatesJob(c, step, p);
      case ArriveWorker(w) => SimulatesJob(c, step, w);
      case FinishWorker(w) => SimulatesJob(c, step, w);
    }
  }

  lemma SimulatesAt(c: System, side: Side, s: L.Step)
    requires Safe(c) && Enabled(c, At(side, s))
    ensures var step := At(side, s);
            && (Shadow(c, step).None? ==> Abstract(Next(c, step)) == Abstract(c))
            && (Shadow(c, step).Some? ==>
                  D.Enabled(Abstract(c), Shadow(c, step).value)
                      && Abstract(Next(c, step)) == D.Next(Abstract(c), Shadow(c, step).value))
  {
    hide L.Sound, D.Safe, Stages;
    if s.Check? {
      StageOfJob(c, s.pid);
    }
  }

  lemma SimulatesUpdater(c: System, step: Step)
    requires Safe(c) && Enabled(c, step)
             && (step.BeginUpdate? || step.PauseProcessing? || step.SeeDrained? || step.EndUpdate?)
    ensures Shadow(c, step).Some? && D.Enabled(Abstract(c), Shadow(c, step).value)
    ensures Abstract(Next(c, step)) == D.Next(Abstract(c), Shadow(c, step).value)
  {
    hide L.Sound, D.Safe, Stages, Ties;
  }

  lemma SimulatesJob(c: System, step: Step, p: Pid)
    requires Safe(c) && Enabled(c, step)
    requires step == ArriveUpload(p) || (step.StartScan? && step.pid == p) || step == EndScan(p)
             || step == FinishUpload(p)
             || step == CancelUpload(p) || step == ArriveWorker(p) || step == FinishWorker(p)
    ensures Shadow(c, step).Some? && D.Enabled(Abstract(c), Shadow(c, step).value)
    ensures Abstract(Next(c, step)) == D.Next(Abstract(c), Shadow(c, step).value)
  {
    hide L.Sound, D.Safe, UpdaterSound, Stages;
    StageOfJob(c, p);
    if step.StartScan? {
      StageOfJob(c, step.worker);
    }
  }

  lemma UpdaterKept(c: System, step: Step)
    requires Safe(c) && Enabled(c, step)
    ensures UpdaterSound(Next(c, step))
  {
    StepMoves(c, step, Uploads);
    StepMoves(c, step, Processing);
    StepTracked(c, step, Uploads);
    StepTracked(c, step, Processing);
    hide L.Sound, D.Safe, Ties, Stages, StagesRun, L.Run, Tracked;
    var up, pr := Moves(c, step, Uploads), Moves(c, step, Processing);
    if step.BeginUpdate? || step.PauseProcessing? {
      NewWaiter(c, step);
    }
    if !step.EndUpdate? {
      match c.updater {
        case Away =>
        case DrainsUploads(w, t) =>
          if !step.PauseProcessing? {
            MovesWaited(c.uploads, Stages(c, Uploads), up, w, t);
          } else {
            MovesPaused(c.uploads, up, t);
          }
        case DrainsProcessing(w, t, u) =>
          MovesPaused(c.uploads, up, t);
          MovesWaited(c.processing, Stages(c, Processing), pr, w, u);
        case HasDrained(t, u) =>
          MovesPaused(c.uploads, up, t);
          MovesPaused(c.processing, pr, u);
      }
    }
  }

  lemma NewWaiter(c: System, step: Step)
    requires Safe(c) && Enabled(c, step) && (step.BeginUpdate? || step.PauseProcessing?)
    ensures var side := if step.BeginUpdate? then Uploads else Processing;
            Waited(GateOf(Next(c, step), side), Stages(Next(c, step), side), step.waiter, step.pause)
  {
    hide L.Sound, D.Safe, UpdaterSound;
    SameStages(c, Next(c, step));
    StageOfJob(c, step.waiter);
  }

  /** The invariant is kept by every step. */
  lemma SafeKept(c: System, step: Step)
    requires Safe(c) && Enabled(c, step)
    ensures Safe(Next(c, step))
  {
    GatesKept(c, step, Uploads);
    GatesKept(c, step, Processing);
    UpdaterKept(c, step);
    Simulates(c, step);
    hide Enabled, Next, L.Sound, Ties, Stages, UpdaterSound, Shadow;
    if Shadow(c, step).Some? {
      D.CountedKept(Abstract(c), Shadow(c, step).value);
      D.StagedKept(Abstract(c), Shadow(c, step).value);
    }
  }

  // ----- safety -----

  lemma InitialSafe(uploads: nat, processing: nat)
    ensures Safe(Initial(uploads, processing))
  {
    L.InitialSafe(uploads);
    L.InitialSafe(processing);
    D.InitialSafe(uploads, processing);
    assert Abstract(Initial(uploads, processing)) == D.Initial(uploads, processing);
    hide L.Sound, D.Safe;
  }

  /**
   In every reachable state no upload holds a permit while processing is paused, and
   once the drain is complete no caller holds a permit at either gate.
   */
  lemma {:induction false} DrainIsSafe(c: System, steps: seq<Step>)
    requires Safe(c) && Run(c, steps).Some?
    ensures Safe(Run(c, steps).value)
    ensures var after := Run(c, steps).value;
            && (after.updater.DrainsProcessing? ==> L.Holders(after.uploads) == {})
            && (after.updater.HasDrained? ==> L.Holders(after.uploads) == {} && L.Holders(after.processing) == {})
    decreases |steps|
  {
    hide Safe, Enabled, Next, L.Holders;
    if steps == [] {
      SafeMeans(c);
    } else {
      SafeKept(c, steps[0]);
      DrainIsSafe(Next(c, steps[0]), steps[1..]);
    }
  }

  lemma SafeMeans(c: System)
    requires Safe(c)
    ensures c.updater.DrainsProcessing? ==> L.Holders(c.uploads) == {}
    ensures c.updater.HasDrained? ==> L.Holders(c.uploads) == {} && L.Holders(c.processing) == {}
  {
    hide Ties, UpdaterSound, L.Holders;
  }

  // ----- progress -----

  /** Steps of callers, jobs and the updater that are already there: nothing arrives, gives up or is resized. */
  predicate Ordinary(step: Step) {
    match step
    case At(_, s) => s.Register? || s.Check? || s.Wake? || s.Notify?
    case EndScan(_) => true
    case FinishUpload(_) => true
    case FinishWorker(_) => true
    case PauseProcessing(_, _) => true
    case SeeDrained => true
    case ArriveUpload(_) => false
    case StartScan(_, _) => false
    case CancelUpload(_) => false
    case ArriveWorker(_) => false
    case BeginUpdate(_, _) => false
    case EndUpdate => false
  }

  ghost predicate AllOrdinary(steps: seq<Step>) {
    forall step | step in steps :: Ordinary(step)
  }

  lemma {:induction false} RunAppend(c: System, a: seq<Step>, b: seq<Step>)
    requires Run(c, a).Some?
    ensures Run(c, a + b) == Run(Run(c, a).value, b)
    decreases |a|
  {
    hide Enabled, Next;
    if a == [] {
      assert a + b == b;
    } else {
      assert (a + b)[1..] == a[1..] + b;
      RunAppend(Next(c, a[0]), a[1..], b);
    }
  }

  lemma RunFirst(c: System, step: Step, rest: seq<Step>)
    requires Enabled(c, step)
    ensures Run(c, [step] + rest) == Run(Next(c, step), rest)
  {
    hide Enabled, Next;
    assert ([step] + rest)[1..] == rest;
  }

  /** How many of its own steps a caller is away from the end of its loop. */
  function Rank(caller: L.Caller): nat {
    match caller.phase
    case Asleep => if caller.notified then 3 else 4
    case Looping => 2
    case Registered => 1
    case Holding => 0
    case Finished => 0
  }

  /** What a caller on its way does next, or the notification it waits for. */
  function NextMove(g: L.State, p: Pid): L.Step
    requires p in g.callers
  {
    match g.callers[p].phase
    case Asleep => if g.callers[p].notified then L.Wake(p) else L.Notify
    case Looping => L.Register(p)
    case Registered => L.Check(p)
    case Holding => L.Notify
    case Finished => L.Notify
  }

  /** A caller whose look at the counters would succeed can take a step towards it that changes nothing else. */
  lemma OneMoveCloser(g: L.State, p: Pid)
    requires L.NoLostWakeup(g) && p in g.callers && Rank(g.callers[p]) > 1 && L.Ready(g, g.callers[p].purpose)
    ensures var s := NextMove(g, p);
            && L.Enabled(g, s) && (s.Wake? || s.Notify? || s.Register?)
            && var after := L.Next(g, s);
               && p in after.callers && after.callers[p].purpose == g.callers[p].purpose
               && 0 < Rank(after.callers[p]) < Rank(g.callers[p])
               && after.active == g.active && after.limit == g.limit && after.pauses == g.pauses
  {
  }

  /** Such a caller reaches its look, with the drain behind the gates as it was. */
  lemma {:induction false} ReachesLook(c: System, side: Side, p: Pid) returns (schedule: seq<Step>)
    requires Safe(c) && p in GateOf(c, side).callers && Rank(GateOf(c, side).callers[p]) > 0
    requires L.Ready(GateOf(c, side), GateOf(c, side).callers[p].purpose)
    ensures AllOrdinary(schedule) && Run(c, schedule).Some?
    ensures var after := Run(c, schedule).value;
            && Safe(after) && Abstract(after) == Abstract(c) && after.updater == c.updater
            && p in GateOf(after, side).callers && Rank(GateOf(after, side).callers[p]) == 1
            && GateOf(after, side).callers[p].purpose == GateOf(c, side).callers[p].purpose
    decreases Rank(GateOf(c, side).callers[p])
  {
    hide Ties, UpdaterSound, D.Safe, Stages;
    var g := GateOf(c, side);
    if Rank(g.callers[p]) == 1 {
      schedule := [];
    } else {
      OneMoveCloser(g, p);
      var step := At(side, NextMove(g, p));
      SafeKept(c, step);
      Simulates(c, step);
      var next := Next(c, step);
      assert GateOf(next, side) == L.Next(g, NextMove(g, p)) && next.updater == c.updater;
      assert L.Ready(GateOf(next, side), GateOf(next, side).callers[p].purpose);
      hide Safe, Next, Enabled, L.Next, L.Ready;
      var rest := ReachesLook(next, side, p);
      RunFirst(c, step, rest);
      schedule := [step] + rest;
    }
  }

  /** And gets through. */
  lemma GetsThrough(c: System, side: Side, p: Pid) returns (schedule: seq<Step>)
    requires Safe(c) && p in GateOf(c, side).callers && Rank(GateOf(c, side).callers[p]) > 0
    requires L.Ready(GateOf(c, side), GateOf(c, side).callers[p].purpose)
    ensures AllOrdinary(schedule) && Run(c, schedule).Some?
    ensures var after := Run(c, schedule).value;
            && Safe(after) && after.updater == c.updater
            && p in GateOf(after, side).callers
            && (p !in Stages(c, side) ==> Abstract(after) == Abstract(c) && L.In(GateOf(after, side), p, L.Finished))
            && (p in Stages(c, side) ==>
                  var step := if side == Uploads then D.AdmitUpload(p) else D.AdmitWorker(p);
                  D.Enabled(Abstract(c), step) && Abstract(after) == D.Next(Abstract(c), step))
  {
    var way := ReachesLook(c, side, p);
    var before := Run(c, way).value;
    LookSucceeds(c, before, side, p);
    var step := At(side, L.Check(p));
    SafeKept(before, step);
    hide Safe, Next, Enabled, Abstract, Stages;
    RunAppend(c, way, [step]);
    RunFirst(before, step, []);
    assert [step] + [] == [step];
    assert Run(Next(before, step), []) == Some(Next(before, step));
    schedule := way + [step];
  }

  lemma LookSucceeds(c: System, before: System, side: Side, p: Pid)
    requires Safe(c) && Safe(before) && Abstract(before) == Abstract(c) && before.updater == c.updater
    requires p in GateOf(c, side).callers && L.Ready(GateOf(c, side), GateOf(c, side).callers[p].purpose)
    requires p in GateOf(before, side).callers && Rank(GateOf(before, side).callers[p]) == 1
    requires GateOf(before, side).callers[p].purpose == GateOf(c, side).callers[p].purpose
    ensures var step := At(side, L.Check(p));
            && Enabled(before, step)
            && var after := Next(before, step);
               && after.updater == c.updater && p in GateOf(after, side).callers
               && (p !in Stages(c, side) ==> Abstract(after) == Abstract(c) && L.In(GateOf(after, side), p, L.Finished))
               && (p in Stages(c, side) ==>
                     var a := if side == Uploads then D.AdmitUpload(p) else D.AdmitWorker(p);
                     D.Enabled(Abstract(c), a) && Abstract(after) == D.Next(Abstract(c), a))
  {
    var step := At(side, L.Check(p));
    SameStages(c, before);
    Simulates(before, step);
    hide L.Sound, UpdaterSound, D.Safe, Stages;
  }

  lemma {:induction false} FreshNumber(used: set<nat>) returns (n: nat)
    ensures n !in used && forall m | m in used :: m < n
  {
    if used == {} {
      n := 0;
    } else {
      var m :| m in used;
      var k := FreshNumber(used - {m});
      n := if k > m then k else m + 1;
      forall x | x in used ensures x < n {
        if x != m {
          assert x in used - {m};
        }
      }
    }
  }

  /** Every step the drain needs can be brought about at the gates. */
  lemma Realised(c: System, a: D.Step) returns (schedule: seq<Step>)
    requires Safe(c) && D.Ordinary(a) && D.Enabled(Abstract(c), a)
    ensures AllOrdinary(schedule) && Run(c, schedule).Some?
    ensures Safe(Run(c, schedule).value) && Abstract(Run(c, schedule).value) == D.Next(Abstract(c), a)
  {
    match a {
      case EndScan(p) => schedule := RealisedAtOnce(c, EndScan(p), a);
      case FinishUpload(p) =>
        JobHolds(c, p);
        schedule := RealisedAtOnce(c, FinishUpload(p), a);
      case FinishWorker(w) =>
        WorkerHolds(c, w);
        schedule := RealisedAtOnce(c, FinishWorker(w), a);
      case AdmitWorker(w) =>
        WorkerQueues(c, w);
        schedule := GetsThrough(c, Processing, w);
      case SeeUploadsIdle => schedule := UploadsSeenIdle(c);
      case SeeProcessingIdle => schedule := ProcessingSeenIdle(c);
    }
  }

  lemma RealisedAtOnce(c: System, step: Step, a: D.Step) returns (schedule: seq<Step>)
    requires Safe(c) && Enabled(c, step) && Ordinary(step) && Shadow(c, step) == Some(a)
    ensures AllOrdinary(schedule) && Run(c, schedule).Some?
    ensures Safe(Run(c, schedule).value) && Abstract(Run(c, schedule).value) == D.Next(Abstract(c), a)
  {
    SafeKept(c, step);
    Simulates(c, step);
    hide Safe, Next, Enabled, Abstract, Shadow;
    RunFirst(c, step, []);
    assert [step] + [] == [step] && Run(Next(c, step), []) == Some(Next(c, step));
    schedule := [step];
  }

  lemma JobHolds(c: System, p: Pid)
    requires Safe(c) && p in c.jobs && (c.jobs[p] == D.Receiving || c.jobs[p] == D.Storing)
    ensures L.In(c.uploads, p, L.Holding)
  {
    hide L.Sound, UpdaterSound, D.Safe;
    StageOfJob(c, p);
  }

  lemma WorkerHolds(c: System, w: Pid)
    requires Safe(c) && w in c.workers && c.workers[w] == D.Decoding
    ensures L.In(c.processing, w, L.Holding)
  {
    hide L.Sound, UpdaterSound, D.Safe;
    StageOfJob(c, w);
  }

  lemma WorkerQueues(c: System, w: Pid)
    requires Safe(c) && w in c.workers && c.workers[w] == D.Waiting && D.Open(Gate(c.processing))
    ensures w in c.processing.callers && Rank(c.processing.callers[w]) > 0
            && L.Ready(c.processing, c.processing.callers[w].purpose)
    ensures w in Stages(c, Processing)
  {
    hide L.Sound, UpdaterSound, D.Safe;
    StageOfJob(c, w);
  }

  /** The updater's waiter gets through an empty gate, if it is not through already. */
  lemma WaiterThrough(c: System, side: Side, waiter: Pid) returns (schedule: seq<Step>)
    requires Safe(c) && Awaits(c, side, waiter) && GateOf(c, side).active == 0
    ensures AllOrdinary(schedule) && Run(c, schedule).Some?
    ensures var after := Run(c, schedule).value;
            Safe(after) && Abstract(after) == Abstract(c) && after.updater == c.updater
                && L.In(GateOf(after, side), waiter, L.Finished)
  {
    WaiterKnown(c, side, waiter);
    hide Safe, Stages;
    if L.In(GateOf(c, side), waiter, L.Finished) {
      schedule := [];
    } else {
      schedule := GetsThrough(c, side, waiter);
    }
  }

  lemma WaiterKnown(c: System, side: Side, waiter: Pid)
    requires Safe(c) && Awaits(c, side, waiter)
    ensures waiter in GateOf(c, side).callers && waiter !in Stages(c, side)
    ensures GateOf(c, side).callers[waiter].purpose == L.ToSeeIdle
    ensures L.In(GateOf(c, side), waiter, L.Finished) || Rank(GateOf(c, side).callers[waiter]) > 0
  {
    hide L.Sound, D.Safe, Stages;
  }

  lemma UploadsSeenIdle(c: System) returns (schedule: seq<Step>)
    requires Safe(c) && D.Enabled(Abstract(c), D.SeeUploadsIdle)
    ensures AllOrdinary(schedule) && Run(c, schedule).Some?
    ensures Safe(Run(c, schedule).value) && Abstract(Run(c, schedule).value) == D.Next(Abstract(c), D.SeeUploadsIdle)
  {
    hide Safe;
    var way := WaiterThrough(c, Uploads, c.updater.waiter);
    var before := Run(c, way).value;
    var waiter := FreshNumber(before.processing.callers.Keys);
    var pause := FreshNumber(before.processing.tokens);
    var rest := RealisedAtOnce(before, PauseProcessing(waiter, pause), D.SeeUploadsIdle);
    hide Abstract;
    RunAppend(c, way, rest);
    schedule := way + rest;
  }

  lemma ProcessingSeenIdle(c: System) returns (schedule: seq<Step>)
    requires Safe(c) && D.Enabled(Abstract(c), D.SeeProcessingIdle)
    ensures AllOrdinary(schedule) && Run(c, schedule).Some?
    ensures Safe(Run(c, schedule).value) && Abstract(Run(c, schedule).value) == D.Next(Abstract(c), D.SeeProcessingIdle)
  {
    hide Safe;
    var way := WaiterThrough(c, Processing, c.updater.waiter);
    var before := Run(c, way).value;
    var rest := RealisedAtOnce(before, SeeDrained, D.SeeProcessingIdle);
    hide Abstract;
    RunAppend(c, way, rest);
    schedule := way + rest;
  }

  /**
   Deadlock freedom at the gates: from every reachable state of a drain, whoever sleeps
   and whatever notification is pending, a finite schedule of ordinary steps completes it.
   */
  lemma {:induction false} DrainCompletes(c: System) returns (schedule: seq<Step>)
    requires Safe(c) && !c.updater.Away?
    ensures AllOrdinary(schedule) && Run(c, schedule).Some? && Run(c, schedule).value.updater.HasDrained?
    decreases D.Stage(Abstract(c)), |D.Uploading(Abstract(c))|, |D.ScanningUploads(Abstract(c))|,
              |D.InPhase(Abstract(c), D.Waiting)|, |D.InPhase(Abstract(c), D.Decoding)|
  {
    if c.updater.HasDrained? {
      schedule := [];
    } else {
      var a := D.SomeStepCloser(Abstract(c));
      StillDraining(Abstract(c), a);
      var way := Realised(c, a);
      var next := Run(c, way).value;
      hide Safe, Run, D.Next, D.Enabled, D.Uploading, D.ScanningUploads, D.InPhase;
      var rest := DrainCompletes(next);
      RunAppend(c, way, rest);
      schedule := way + rest;
    }
  }

  lemma StillDraining(s: D.System, a: D.Step)
    requires D.Enabled(s, a) && D.Ordinary(a) && s.phase != D.Serving
    ensures D.Next(s, a).phase != D.Serving
  {
  }
}
