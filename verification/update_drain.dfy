/**
 The drain before an update. Uploads hold an upload permit while a detached
 worker waits for, and then holds, a processing permit; previews and rescans
 start workers of their own. The updater pauses and drains the uploads first and
 the processing second, then takes its backup.

 Here a permit is taken in one step once the gate admits it. `GatedDrain` puts the
 limiters with their sleeping callers and pending notifications in place of the gates.
 */
module UpdateDrain {
  import opened Outcomes

  type Pid = nat

  /** `Scanning(w)` awaits the detached worker `w` while keeping the upload permit. */
  datatype Upload = Queued | Receiving | Scanning(worker: Pid) | Storing | Gone

  datatype Worker = Waiting | Decoding | Done

  datatype Phase = Serving | DrainingUploads | DrainingProcessing | Drained

  datatype Gate = Gate(active: int, limit: nat, pauses: int)

  datatype System = System(
    uploadGate: Gate,
    processingGate: Gate,
    uploads: map<Pid, Upload>,
    workers: map<Pid, Worker>,
    phase: Phase)

  datatype Step =
    | ArriveUpload(pid: Pid)
    | AdmitUpload(pid: Pid)
    | StartScan(pid: Pid, worker: Pid)
    | EndScan(pid: Pid)
    | FinishUpload(pid: Pid)
    | CancelUpload(pid: Pid)
    | ArriveWorker(worker: Pid)
    | AdmitWorker(worker: Pid)
    | FinishWorker(worker: Pid)
    | Resize(uploads: nat, processing: nat)
    | BeginUpdate
    | SeeUploadsIdle
    | SeeProcessingIdle
    | EndUpdate

  predicate Open(g: Gate) {
    g.pauses == 0 && (g.limit == 0 || g.active < g.limit)
  }

  predicate HoldsPermit(u: Upload) {
    u == Receiving || u.Scanning? || u == Storing
  }

  predicate Enabled(s: System, step: Step) {
    match step
    case ArriveUpload(pid) => pid !in s.uploads
    case AdmitUpload(pid) => pid in s.uploads && s.uploads[pid] == Queued && Open(s.uploadGate)
    case StartScan(pid, worker) => pid in s.uploads && s.uploads[pid] == Receiving && worker !in s.workers
    case EndScan(pid) =>
      pid in s.uploads && s.uploads[pid].Scanning? &&
      s.uploads[pid].worker in s.workers && s.workers[s.uploads[pid].worker] == Done
    case FinishUpload(pid) => pid in s.uploads && (s.uploads[pid] == Receiving || s.uploads[pid] == Storing)
    case CancelUpload(pid) => pid in s.uploads && s.uploads[pid] != Gone
    case ArriveWorker(worker) => worker !in s.workers
    case AdmitWorker(worker) => worker in s.workers && s.workers[worker] == Waiting && Open(s.processingGate)
    case FinishWorker(worker) => worker in s.workers && s.workers[worker] == Decoding
    case Resize(_, _) => true
    case BeginUpdate => s.phase == Serving
    case SeeUploadsIdle => s.phase == DrainingUploads && s.uploadGate.active == 0
    case SeeProcessingIdle => s.phase == DrainingProcessing && s.processingGate.active == 0
    case EndUpdate => s.phase != Serving
  }

  function Entered(g: Gate): Gate { g.(active := g.active + 1) }
  function Left(g: Gate): Gate { g.(active := g.active - 1) }
  function Paused(g: Gate): Gate { g.(pauses := g.pauses + 1) }
  function Resumed(g: Gate): Gate { g.(pauses := g.pauses - 1) }

  function Next(s: System, step: Step): System
    requires Enabled(s, step)
  {
    match step
    case ArriveUpload(pid) => s.(uploads := s.uploads[pid := Queued])
    case AdmitUpload(pid) => s.(uploads := s.uploads[pid := Receiving], uploadGate := Entered(s.uploadGate))
    case StartScan(pid, worker) =>
      s.(uploads := s.uploads[pid := Scanning(worker)], workers := s.workers[worker := Waiting])
    case EndScan(pid) => s.(uploads := s.uploads[pid := Storing])
    case FinishUpload(pid) => s.(uploads := s.uploads[pid := Gone], uploadGate := Left(s.uploadGate))
    case CancelUpload(pid) =>
      s.(uploads := s.uploads[pid := Gone],
         uploadGate := if HoldsPermit(s.uploads[pid]) then Left(s.uploadGate) else s.uploadGate)
    case ArriveWorker(worker) => s.(workers := s.workers[worker := Waiting])
    case AdmitWorker(worker) =>
      s.(workers := s.workers[worker := Decoding], processingGate := Entered(s.processingGate))
    case FinishWorker(worker) => s.(workers := s.workers[worker := Done], processingGate := Left(s.processingGate))
    case Resize(uploads, processing) =>
      s.(uploadGate := s.uploadGate.(limit := uploads), processingGate := s.processingGate.(limit := processing))
    case BeginUpdate => s.(phase := DrainingUploads, uploadGate := Paused(s.uploadGate))
    case SeeUploadsIdle => s.(phase := DrainingProcessing, processingGate := Paused(s.processingGate))
    case SeeProcessingIdle => s.(phase := Drained)
    case EndUpdate =>
      s.(phase := Serving, uploadGate := Resumed(s.uploadGate),
         processingGate := if s.phase == DrainingUploads then s.processingGate else Resumed(s.processingGate))
  }

  function Initial(uploads: nat, processing: nat): System {
    System(Gate(0, uploads, 0), Gate(0, processing, 0), map[], map[], Serving)
  }

  function Run(s: System, steps: seq<Step>): Option<System>
    decreases |steps|
  {
    if steps == [] then Some(s)
    else if Enabled(s, steps[0]) then Run(Next(s, steps[0]), steps[1..])
    else None
  }

  // ----- safety -----

  ghost function Uploading(s: System): set<Pid> {
    set p | p in s.uploads && HoldsPermit(s.uploads[p])
  }

  ghost function InPhase(s: System, w: Worker): set<Pid> {
    set p | p in s.workers && s.workers[p] == w
  }

  ghost function ScanningUploads(s: System): set<Pid> {
    set p | p in s.uploads && s.uploads[p].Scanning?
  }

  ghost predicate Counted(s: System) {
    && s.uploadGate.active == |Uploading(s)|
    && s.processingGate.active == |InPhase(s, Decoding)|
    && (forall p | p in s.uploads && s.uploads[p].Scanning? :: s.uploads[p].worker in s.workers)
  }

  /** The pauses in force and the gates already drained, phase by phase. */
  ghost predicate Staged(s: System) {
    && s.uploadGate.pauses == (if s.phase == Serving then 0 else 1)
    && s.processingGate.pauses == (if s.phase == DrainingProcessing || s.phase == Drained then 1 else 0)
    && (s.phase == DrainingProcessing || s.phase == Drained ==> s.uploadGate.active == 0)
    && (s.phase == Drained ==> s.processingGate.active == 0)
  }

  ghost predicate Safe(s: System) {
    Counted(s) && Staged(s)
  }

  lemma OneUploadChanged(s: System, after: System, pid: Pid, u: Upload)
    requires after.uploads == s.uploads[pid := u]
    ensures Uploading(after) == if HoldsPermit(u) then Uploading(s) + {pid} else Uploading(s) - {pid}
    ensures pid in Uploading(s) <==> pid in s.uploads && HoldsPermit(s.uploads[pid])
  {
  }

  lemma UploadsCounted(s: System, step: Step)
    requires Counted(s) && Enabled(s, step)
    ensures Next(s, step).uploadGate.active == |Uploading(Next(s, step))|
  {
    var after := Next(s, step);
    if step.ArriveUpload? || step.AdmitUpload? || step.StartScan? || step.EndScan? || step.FinishUpload?
       || step.CancelUpload? {
      OneUploadChanged(s, after, step.pid, after.uploads[step.pid]);
      hide Uploading;
      assert Uploading(after) == Uploading(s) || Uploading(after) == Uploading(s) + {step.pid}
             || Uploading(after) == Uploading(s) - {step.pid};
    } else {
      assert Uploading(after) == Uploading(s);
    }
  }

  lemma WorkersCounted(s: System, step: Step)
    requires Counted(s) && Enabled(s, step)
    ensures Next(s, step).processingGate.active == |InPhase(Next(s, step), Decoding)|
  {
    var after := Next(s, step);
    if step.AdmitWorker? {
      assert InPhase(after, Decoding) == InPhase(s, Decoding) + {step.worker};
    } else if step.FinishWorker? {
      assert InPhase(after, Decoding) == InPhase(s, Decoding) - {step.worker};
      assert step.worker in InPhase(s, Decoding);
    } else {
      assert InPhase(after, Decoding) == InPhase(s, Decoding);
    }
  }

  lemma CountedKept(s: System, step: Step)
    requires Counted(s) && Enabled(s, step)
    ensures Counted(Next(s, step))
  {
    UploadsCounted(s, step);
    WorkersCounted(s, step);
    hide Uploading, InPhase;
  }

  lemma StagedKept(s: System, step: Step)
    requires Safe(s) && Enabled(s, step)
    ensures Staged(Next(s, step))
  {
    assert step.FinishUpload? ==> step.pid in Uploading(s);
    assert step.CancelUpload? && HoldsPermit(s.uploads[step.pid]) ==> step.pid in Uploading(s);
    assert step.FinishWorker? ==> step.worker in InPhase(s, Decoding);
  }

  /**
   In every reachable state both counters are exact, no upload is in flight while
   processing is paused, and once the drain is complete nothing runs: the backup
   is taken while no upload and no worker is active.
   */
  lemma {:induction false} DrainIsSafe(s: System, steps: seq<Step>)
    requires Safe(s) && Run(s, steps).Some?
    ensures Safe(Run(s, steps).value)
    ensures var after := Run(s, steps).value;
            && (after.processingGate.pauses > 0 ==> Uploading(after) == {})
            && (after.phase == Drained ==> Uploading(after) == {} && InPhase(after, Decoding) == {})
    decreases |steps|
  {
    if steps != [] {
      CountedKept(s, steps[0]);
      StagedKept(s, steps[0]);
      DrainIsSafe(Next(s, steps[0]), steps[1..]);
    }
  }

  /** While the update lasts, the drained system stays drained, whatever arrives. */
  lemma {:induction false} DrainedStays(s: System, steps: seq<Step>)
    requires Safe(s) && s.phase == Drained && Run(s, steps).Some?
    requires EndUpdate !in steps
    ensures var after := Run(s, steps).value;
            after.phase == Drained && after.uploadGate.active == 0 && after.processingGate.active == 0
    decreases |steps|
  {
    if steps != [] {
      assert steps[0] in steps;
      CountedKept(s, steps[0]);
      StagedKept(s, steps[0]);
      DrainedStays(Next(s, steps[0]), steps[1..]);
    }
  }

  lemma InitialSafe(uploads: nat, processing: nat)
    ensures Safe(Initial(uploads, processing))
  {
    assert Uploading(Initial(uploads, processing)) == {};
    assert InPhase(Initial(uploads, processing), Decoding) == {};
  }

  // ----- progress -----

  /** Steps of jobs already admitted or spawned and of the updater: nothing arrives, gives up or is resized. */
  predicate Ordinary(step: Step) {
    step.EndScan? || step.FinishUpload? || step.AdmitWorker? || step.FinishWorker? ||
    step.SeeUploadsIdle? || step.SeeProcessingIdle?
  }

  ghost predicate AllOrdinary(steps: seq<Step>) {
    forall step | step in steps :: Ordinary(step)
  }

  /** How far the drain is from its end, compared lexicographically. */
  ghost function Stage(s: System): nat {
    match s.phase
    case DrainingUploads => 2
    case DrainingProcessing => 1
    case _ => 0
  }

  ghost predicate Closer(after: System, s: System) {
    || Stage(after) < Stage(s)
    || (Stage(after) == Stage(s) && |Uploading(after)| < |Uploading(s)|)
    || (Stage(after) == Stage(s) && Uploading(after) == Uploading(s) &&
        |ScanningUploads(after)| < |ScanningUploads(s)|)
    || (Stage(after) == Stage(s) && Uploading(after) == Uploading(s) && ScanningUploads(after) == ScanningUploads(s) &&
        |InPhase(after, Waiting)| < |InPhase(s, Waiting)|)
    || (Stage(after) == Stage(s) && Uploading(after) == Uploading(s) && ScanningUploads(after) == ScanningUploads(s) &&
        InPhase(after, Waiting) == InPhase(s, Waiting) && |InPhase(after, Decoding)| < |InPhase(s, Decoding)|)
  }

  lemma FinishWorkerCloser(s: System, worker: Pid)
    requires Enabled(s, FinishWorker(worker))
    ensures Closer(Next(s, FinishWorker(worker)), s)
  {
    var after := Next(s, FinishWorker(worker));
    assert Uploading(after) == Uploading(s) && ScanningUploads(after) == ScanningUploads(s);
    assert InPhase(after, Waiting) == InPhase(s, Waiting);
    assert InPhase(after, Decoding) == InPhase(s, Decoding) - {worker};
    assert worker in InPhase(s, Decoding);
  }

  lemma AdmitWorkerCloser(s: System, worker: Pid)
    requires Enabled(s, AdmitWorker(worker))
    ensures Closer(Next(s, AdmitWorker(worker)), s)
  {
    var after := Next(s, AdmitWorker(worker));
    assert Uploading(after) == Uploading(s) && ScanningUploads(after) == ScanningUploads(s);
    assert InPhase(after, Waiting) == InPhase(s, Waiting) - {worker};
    assert worker in InPhase(s, Waiting);
  }

  lemma EndScanCloser(s: System, pid: Pid)
    requires Enabled(s, EndScan(pid))
    ensures Closer(Next(s, EndScan(pid)), s)
  {
    var after := Next(s, EndScan(pid));
    assert Uploading(after) == Uploading(s);
    assert ScanningUploads(after) == ScanningUploads(s) - {pid};
    assert pid in ScanningUploads(s);
  }

  lemma FinishUploadCloser(s: System, pid: Pid)
    requires Enabled(s, FinishUpload(pid))
    ensures Closer(Next(s, FinishUpload(pid)), s)
  {
    assert Uploading(Next(s, FinishUpload(pid))) == Uploading(s) - {pid};
    assert pid in Uploading(s);
  }

  /** There is always an ordinary step, and it brings the drain closer to its end. */
  lemma SomeStepCloser(s: System) returns (step: Step)
    requires Safe(s) && Stage(s) > 0
    ensures Enabled(s, step) && Ordinary(step) && Closer(Next(s, step), s)
  {
    if InPhase(s, Decoding) != {} {
      var worker :| worker in InPhase(s, Decoding);
      step := FinishWorker(worker);
      FinishWorkerCloser(s, worker);
    } else if s.phase == DrainingProcessing {
      step := SeeProcessingIdle;
    } else if ScanningUploads(s) != {} {
      var pid :| pid in ScanningUploads(s);
      var worker := s.uploads[pid].worker;
      if s.workers[worker] == Done {
        step := EndScan(pid);
        EndScanCloser(s, pid);
      } else {
        assert worker !in InPhase(s, Decoding);
        step := AdmitWorker(worker);
        AdmitWorkerCloser(s, worker);
      }
    } else if Uploading(s) != {} {
      var pid :| pid in Uploading(s);
      assert pid !in ScanningUploads(s);
      step := FinishUpload(pid);
      FinishUploadCloser(s, pid);
    } else {
      step := SeeUploadsIdle;
    }
  }

  /**
   From every reachable state of a drain, a finite schedule of ordinary steps
   completes it: the nesting of permits cannot deadlock the updater.
   */
  lemma {:induction false} DrainCanFinish(s: System) returns (schedule: seq<Step>)
    requires Safe(s) && s.phase != Serving
    ensures AllOrdinary(schedule)
    ensures Run(s, schedule).Some? && Run(s, schedule).value.phase == Drained
    decreases Stage(s), |Uploading(s)|, |ScanningUploads(s)|, |InPhase(s, Waiting)|, |InPhase(s, Decoding)|
  {
    if s.phase == Drained {
      schedule := [];
    } else {
      var step := SomeStepCloser(s);
      CountedKept(s, step);
      StagedKept(s, step);
      var rest := DrainCanFinish(Next(s, step));
      schedule := [step] + rest;
      assert schedule[1..] == rest;
    }
  }
}
