/**
 Publishing a configuration: a file replaced atomically, a database transaction, the
 settings held in memory, and startup that replays the file. Any step may be followed by a
 crash, the file may be edited between any two, and offline players are served in between.
 */
module ConfigPublication {
  import opened ConfigProviders
  import opened Outcomes
  import Effects = OfflineEffects
  import Invariant = OfflineInvariant
  import Offline = OfflineTransactions
  import Tables = OfflineTables

  /** A loaded configuration; `sound` stands for the remaining validation. */
  datatype Config = Config(
    providers: seq<Configured>,
    blockR18: bool,
    blockUnclassified: bool,
    mode: Tables.Mode,
    sound: bool)

  datatype Store = Store(registry: Registry, blockR18: bool, blockUnclassified: bool, offline: Tables.Db)

  predicate ValidConfig(c: Config) {
    c.sound && ValidProviders(c.providers)
  }

  /** The transaction of `apply`. */
  function Applied(c: Config, s: Store, t: int): Store {
    Store(Reconciled(s.registry, c.providers), c.blockR18, c.blockUnclassified, Offline.Configure(s.offline, c.mode, t))
  }

  // ----- the process -----

  /**
   Startup loads the file once. `Running(agreed)` remembers whether file, memory and store
   agree. A publication remembers the file it found, and in `was` whether memory and store
   agree with that file; `Committed` is a transaction whose settings are not in memory yet.
   */
  datatype Phase =
    | Stopped
    | Opened(loaded: Config)
    | Purged(loaded: Config)
    | Running(agreed: bool)
    | Prepared(next: Config, prior: Config, was: bool)
    | Written(next: Config, prior: Config, was: bool)
    | CommitFailed(prior: Config, was: bool)
    | Committed(next: Config)

  /** `active` is the configuration in the memory of the process. */
  datatype World = World(file: Config, store: Store, active: Option<Config>, phase: Phase)

  datatype Step =
    | Crash
    // Startup: the moderation policy, then one transaction that ends every session, then `apply`.
    | Open
    | Purge(t: int)
    | Replay(t: int)
    // Publication: preflight and statements, the file, the commit, and on its failure the old file.
    // `CommitLost` is a commit that lands but whose reply is an error.
    | Begin(next: Config)
    | WriteFile
    | WriteFails
    | Commit(t: int)
    | CommitFails
    | CommitLost(t: int)
    | Restore
    | RestoreFails
    | Install
    // The reload loop, with a commit that may land unheard, and an operator editing the file at any time.
    | Reload(t: int)
    | ReloadLost(t: int)
    | Edit(file: Config)
    // An operation of an offline player or an administrator, while the process serves.
    | Serve(op: Offline.Op, delay: Offline.Delay)

  predicate Enabled(w: World, step: Step) {
    match step
    case Crash => true
    case Open => w.phase.Stopped?
    case Purge(_) => w.phase.Opened?
    case Replay(_) => w.phase.Purged?
    case Begin(_) => w.phase.Running?
    case WriteFile => w.phase.Prepared?
    case WriteFails => w.phase.Prepared?
    case Commit(_) => w.phase.Written?
    case CommitFails => w.phase.Written?
    case CommitLost(_) => w.phase.Written?
    case Restore => w.phase.CommitFailed?
    case RestoreFails => w.phase.CommitFailed?
    case Install => w.phase.Committed?
    case Reload(_) => w.phase.Running?
    case ReloadLost(_) => w.phase.Running?
    case Edit(_) => true
    case Serve(op, _) => (w.phase.Running? || w.phase.Committed?) && !op.OpConfigure? && !op.OpStartup?
  }

  function Taken(w: World, step: Step): World
    requires Enabled(w, step)
  {
    match step
    // The open transaction is rolled back, so the store is as it was committed last.
    case Crash => w.(active := None, phase := Stopped)
    case Open =>
      var store := w.store.(blockR18 := w.file.blockR18, blockUnclassified := w.file.blockUnclassified);
      w.(store := store, phase := Opened(w.file))
    case Purge(t) =>
      var loaded := w.phase.loaded;
      w.(store := w.store.(offline := Offline.Startup(w.store.offline, loaded.mode, t)), phase := Purged(loaded))
    case Replay(t) =>
      var loaded := w.phase.loaded;
      if ValidConfig(loaded) then
        World(w.file, Applied(loaded, w.store, t), Some(loaded), Running(w.file == loaded))
      else w.(phase := Stopped)
    case Begin(next) =>
      if ValidConfig(next) then w.(phase := Prepared(next, w.file, w.phase.agreed)) else w
    case WriteFile => w.(file := w.phase.next, phase := Written(w.phase.next, w.phase.prior, w.phase.was))
    case WriteFails => w.(phase := Running(w.phase.was && w.file == w.phase.prior))
    case Commit(t) => w.(store := Applied(w.phase.next, w.store, t), phase := Committed(w.phase.next))
    case CommitFails => w.(phase := CommitFailed(w.phase.prior, w.phase.was))
    case CommitLost(t) => w.(store := Applied(w.phase.next, w.store, t), phase := CommitFailed(w.phase.prior, false))
    case Restore => w.(file := w.phase.prior, phase := Running(w.phase.was))
    case RestoreFails => w.(phase := Running(false))
    case Install => w.(active := Some(w.phase.next), phase := Running(w.file == w.phase.next))
    case Reload(t) =>
      if ValidConfig(w.file) then w.(store := Applied(w.file, w.store, t), phase := Committed(w.file)) else w
    case ReloadLost(t) =>
      if ValidConfig(w.file) then w.(store := Applied(w.file, w.store, t), phase := Running(false)) else w
    case Edit(file) => w.(file := file, phase := if w.phase.Running? then Running(false) else w.phase)
    case Serve(op, delay) => w.(store := w.store.(offline := Offline.Step(w.store.offline, op, delay).db))
  }

  function Run(w: World, steps: seq<Step>): Option<World>
    decreases |steps|
  {
    if steps == [] then Some(w)
    else if Enabled(w, steps[0]) then Run(Taken(w, steps[0]), steps[1..])
    else None
  }

  // ----- `apply` with a publication -----

  /** What the database does with a commit, and what it says. */
  datatype CommitReply = Kept | Refused | LandedRefused

  /** What the file system and the database answer during one publication. */
  datatype Answers = Answers(written: bool, reply: CommitReply, restored: bool)

  function Publication(next: Config, a: Answers, t: int): seq<Step> {
    [Begin(next)] +
    if !ValidConfig(next) then []
    else if !a.written then [WriteFails]
    else if a.reply == Kept then [WriteFile, Commit(t), Install]
    else
      [WriteFile, if a.reply == Refused then CommitFails else CommitLost(t),
       if a.restored then Restore else RestoreFails]
  }

  class Server {
    var file: Config
    var store: Store
    var active: Config

    constructor (file: Config, store: Store, active: Config)
      ensures this.file == file && this.store == store && this.active == active
    {
      this.file, this.store, this.active := file, store, active;
    }

    /**
     Preflight, statements, file, commit, memory; a commit that reports a failure puts the
     old file back if it can.
     */
    method Apply(next: Config, a: Answers, t: int) returns (ok: bool)
      modifies this
      ensures ok <==> ValidConfig(next) && a.written && a.reply == Kept
      ensures ok ==> store == Applied(next, old(store), t) && file == next && active == next
      ensures ok ==> store.registry == Reconciled(old(store).registry, next.providers)
      ensures ok ==> store.blockR18 == next.blockR18 && store.blockUnclassified == next.blockUnclassified
      ensures Invariant.Inv(old(store).offline) ==> Invariant.Inv(store.offline)
      ensures Invariant.Inv(old(store).offline) && (ok || store != old(store)) ==>
                Effects.ConfiguredFor(old(store).offline, store.offline, next.mode, t)
      ensures !ok ==> active == old(active)
      ensures !ok && store != old(store) ==>
                a.reply == LandedRefused && a.written && store == Applied(next, old(store), t)
      ensures !ok && file != old(file) ==> file == next && a.reply != Kept && !a.restored
      ensures forall was ::
                var end := Run(World(old(file), old(store), Some(old(active)), Running(was)), Publication(next, a, t));
                && end.Some? && end.value.phase.Running?
                && end.value.file == file && end.value.store == store && end.value.active == Some(active)
    {
      hide Reconciled, Offline.Configure, ValidProviders, Invariant.Inv, Effects.ConfiguredFor;
      if Invariant.Inv(store.offline) {
        AppliedMeans(next, store, t);
      }
      forall was
        ensures var w := World(file, store, Some(active), Running(was));
                Run(w, Publication(next, a, t)) == Some(PublicationEnd(w, next, a, t))
      {
        PublicationRuns(World(file, store, Some(active), Running(was)), next, a, t);
      }
      if !ValidConfig(next) {
        return false;
      }
      var prior := file;
      var transaction := Applied(next, store, t);
      if !a.written {
        return false;
      }
      file := next;
      if a.reply != Refused {
        store := transaction;
      }
      if a.reply != Kept {
        if a.restored {
          file := prior;
        }
        return false;
      }
      active := next;
      ok := true;
    }
  }

  function PublicationEnd(w: World, next: Config, a: Answers, t: int): World
    requires w.phase.Running?
  {
    if !ValidConfig(next) || !a.written then w
    else if a.reply == Kept then World(next, Applied(next, w.store, t), Some(next), Running(true))
    else
      World(if a.restored then w.file else next,
            if a.reply == Refused then w.store else Applied(next, w.store, t),
            w.active,
            Running(a.restored && a.reply == Refused && w.phase.agreed))
  }

  lemma PublicationRuns(w: World, next: Config, a: Answers, t: int)
    requires w.phase.Running?
    ensures Run(w, Publication(next, a, t)) == Some(PublicationEnd(w, next, a, t))
  {
    hide Applied, ValidConfig, Run;
    if ValidConfig(next) && a.written {
      WrittenRuns(w, next, a, t);
    } else if ValidConfig(next) {
      assert Publication(next, a, t) == [Begin(next)] + ([WriteFails] + []);
      RunNext(w, Begin(next), [WriteFails] + []);
      RunNext(Taken(w, Begin(next)), WriteFails, []);
      RunEmpty(w);
    } else {
      assert Publication(next, a, t) == [Begin(next)] + [];
      RunNext(w, Begin(next), []);
      RunEmpty(w);
    }
  }

  lemma WrittenRuns(w: World, next: Config, a: Answers, t: int)
    requires w.phase.Running? && ValidConfig(next) && a.written
    ensures Run(w, Publication(next, a, t)) == Some(PublicationEnd(w, next, a, t))
  {
    hide Applied, ValidConfig, Run;
    var begun := Taken(w, Begin(next));
    var second := Taken(begun, WriteFile);
    var third := if a.reply == Kept then Commit(t) else if a.reply == Refused then CommitFails else CommitLost(t);
    var last := if a.reply == Kept then Install else if a.restored then Restore else RestoreFails;
    assert Publication(next, a, t) == [Begin(next)] + ([WriteFile] + ([third] + ([last] + [])));
    RunNext(w, Begin(next), [WriteFile] + ([third] + ([last] + [])));
    RunNext(begun, WriteFile, [third] + ([last] + []));
    RunNext(second, third, [last] + []);
    RunNext(Taken(second, third), last, []);
    RunEmpty(Taken(Taken(second, third), last));
  }

  // ----- the offline tables -----

  /** Applying a configuration keeps the offline tables safe, and switching them off ends every session. */
  lemma AppliedMeans(c: Config, s: Store, t: int)
    requires Invariant.Inv(s.offline)
    ensures Invariant.Inv(Applied(c, s, t).offline)
    ensures Effects.ConfiguredFor(s.offline, Applied(c, s, t).offline, c.mode, t)
  {
    hide *;
    assert Applied(c, s, t).offline == Offline.Configure(s.offline, c.mode, t) by {
      AppliedOffline(c, s, t);
    }
    Invariant.ConfigureKeepsInv(s.offline, c.mode, t);
    Effects.ConfigureMeans(s.offline, c.mode, t);
  }

  lemma AppliedOffline(c: Config, s: Store, t: int)
    ensures Applied(c, s, t).offline == Offline.Configure(s.offline, c.mode, t)
  {
  }

  /** The offline tables are safe, and silent once a startup has purged them. */
  ghost predicate OfflineSound(w: World) {
    Invariant.Inv(w.store.offline) && (w.phase.Purged? ==> Effects.AllSilent(w.store.offline))
  }

  lemma OfflineSoundKept(w: World, step: Step)
    requires OfflineSound(w) && Enabled(w, step)
    ensures OfflineSound(Taken(w, step))
    ensures step.Replay? ==> Effects.AllSilent(Taken(w, step).store.offline)
  {
    hide Applied, ValidConfig, Invariant.Inv, Effects.AllSilent, Effects.ConfiguredFor, Effects.StartedFor;
    hide Offline.Startup, Offline.Step;
    match step {
      case Purge(t) =>
        Invariant.StartupKeepsInv(w.store.offline, w.phase.loaded.mode, t);
        Effects.StartupMeans(w.store.offline, w.phase.loaded.mode, t);
        StartedSilent(w.store.offline, Offline.Startup(w.store.offline, w.phase.loaded.mode, t), w.phase.loaded.mode,
                      t);
      case Replay(t) =>
        AppliedMeans(w.phase.loaded, w.store, t);
        ConfiguredSilent(w.store.offline, Applied(w.phase.loaded, w.store, t).offline, w.phase.loaded.mode, t);
      case Commit(t) => AppliedMeans(w.phase.next, w.store, t);
      case CommitLost(t) => AppliedMeans(w.phase.next, w.store, t);
      case Reload(t) => AppliedMeans(w.file, w.store, t);
      case ReloadLost(t) => AppliedMeans(w.file, w.store, t);
      case Serve(op, delay) => Invariant.StepKeepsInv(w.store.offline, op, delay);
      case Crash =>
      case Open =>
      case Begin(_) =>
      case WriteFile =>
      case WriteFails =>
      case CommitFails =>
      case Restore =>
      case RestoreFails =>
      case Install =>
      case Edit(_) =>
    }
  }

  lemma StartedSilent(before: Tables.Db, after: Tables.Db, mode: Tables.Mode, t: int)
    requires Effects.StartedFor(before, after, mode, t)
    ensures Effects.AllSilent(after)
  {
  }

  lemma ConfiguredSilent(before: Tables.Db, after: Tables.Db, mode: Tables.Mode, t: int)
    requires Effects.ConfiguredFor(before, after, mode, t) && Effects.AllSilent(before)
    ensures Effects.AllSilent(after)
  {
  }

  /**
   Whatever is published, reloaded, edited and served, and wherever the process crashes, the
   offline tables stay safe.
   */
  lemma {:induction false} RunKeepsOffline(w: World, steps: seq<Step>)
    requires OfflineSound(w) && Run(w, steps).Some?
    ensures OfflineSound(Run(w, steps).value)
    decreases |steps|
  {
    hide OfflineSound, Taken, Enabled;
    if steps != [] {
      OfflineSoundKept(w, steps[0]);
      RunKeepsOffline(Taken(w, steps[0]), steps[1..]);
    }
  }

  /** A startup that completes leaves no session from before acceptable, to anybody at any time. */
  lemma StartupSilences(w: World, next: Config, steps: seq<Step>, t: int)
    requires Recovers(w, next, steps, t) && Invariant.Inv(w.store.offline)
    ensures var end := Recovered(w, next, steps, t).store.offline;
            && Invariant.Inv(end) && Effects.AllSilent(end)
            && forall s, account, token, time :: Offline.Authorize(end, account, s, token, time).Some?
  {
    hide Invariant.Inv, Effects.AllSilent, Offline.Authorize, Run, Taken, Enabled, Recovered, Recovers, Interruption;
    BeforeReplay(w, next, steps, t);
    RunningSound(w);
    OfflineSoundKept(w, Begin(next));
    RunKeepsOffline(Taken(w, Begin(next)), steps);
    var before := Run(Taken(w, Begin(next)), steps).value;
    OfflineSoundKept(before, Replay(t));
    var end := Recovered(w, next, steps, t).store.offline;
    forall s, account, token, time ensures Offline.Authorize(end, account, s, token, time).Some? {
      Effects.AllSilentRefuses(end, s, account, token, time);
    }
  }

  lemma RunningSound(w: World)
    requires !w.phase.Purged? && Invariant.Inv(w.store.offline)
    ensures OfflineSound(w)
  {
  }

  // ----- what configuration decides -----

  /** The part of the store that configuration decides: providers, policy, offline mode and switch. */
  datatype Settings = Settings(registry: Registry, blockR18: bool, blockUnclassified: bool, mode: Tables.Mode,
                               enabled: bool)

  function SettingsOf(s: Store): Settings {
    Settings(s.registry, s.blockR18, s.blockUnclassified, s.offline.mode, s.offline.enabled)
  }

  function Decided(c: Config, s: Settings): Settings {
    Settings(Reconciled(s.registry, c.providers), c.blockR18, c.blockUnclassified, c.mode,
             c.mode != Tables.ModeDisabled)
  }

  /** Applying a configuration decides the settings whatever the sessions and revisions are. */
  lemma AppliedDecides(c: Config, s: Store, t: int)
    ensures SettingsOf(Applied(c, s, t)) == Decided(c, SettingsOf(s))
  {
    hide Reconciled;
  }

  lemma DecidedTwice(c: Config, s: Settings)
    ensures Decided(c, Decided(c, s)) == Decided(c, s)
  {
    hide Reconciled;
    ReconciledTwice(s.registry, c.providers);
  }

  /** The flags and the mode are overwritten, so only the registry is carried over. */
  lemma DecidedByRegistry(c: Config, x: Settings, y: Settings)
    requires x.registry == y.registry
    ensures Decided(c, x) == Decided(c, y)
  {
  }

  /** Serving offline players leaves what configuration decides. */
  lemma ServedSettings(s: Store, op: Offline.Op, delay: Offline.Delay)
    requires !op.OpConfigure? && !op.OpStartup?
    ensures SettingsOf(s.(offline := Offline.Step(s.offline, op, delay).db)) == SettingsOf(s)
  {
    hide Offline.Authorize, Offline.KeyInsertable, Offline.KeyUsable;
  }

  // ----- recovery -----

  /** What may happen after a publication began: its own steps, crashes, startups and edits of the file. */
  predicate Interrupts(step: Step) {
    !step.Begin? && !step.Reload? && !step.ReloadLost?
  }

  predicate Interruption(steps: seq<Step>) {
    forall k | 0 <= k < |steps| :: Interrupts(steps[k])
  }

  /** A commit landed although its reply was an error. */
  predicate LostIn(steps: seq<Step>) {
    steps != [] && (steps[0].CommitLost? || LostIn(steps[1..]))
  }

  /** A commit landed and was reported. */
  predicate CommittedIn(steps: seq<Step>) {
    steps != [] && (steps[0].Commit? || CommittedIn(steps[1..]))
  }

  predicate EditedIn(steps: seq<Step>) {
    steps != [] && (steps[0].Edit? || EditedIn(steps[1..]))
  }

  predicate ReplayedIn(steps: seq<Step>) {
    steps != [] && (steps[0].Replay? || ReplayedIn(steps[1..]))
  }

  /** The settings that startup works from: `pre`, or those of a commit that landed. */
  function Base(next: Config, pre: Settings, landed: bool): Settings {
    if landed then Decided(next, pre) else pre
  }

  /** How far a publication of `next` over `pre` has got in the store. */
  predicate Landed(w: World, next: Config, pre: Settings, landed: bool) {
    && (landed ==> ValidConfig(next))
    && (w.phase.Prepared? || w.phase.Written? ==> w.phase.next == next && ValidConfig(next) && !landed)
  }

  /** Nothing but that publication has touched the providers. */
  predicate Untouched(w: World, next: Config, pre: Settings, landed: bool) {
    w.store.registry == Base(next, pre, landed).registry
  }

  lemma UntouchedKept(w: World, next: Config, pre: Settings, landed: bool, step: Step)
    requires Landed(w, next, pre, landed) && Untouched(w, next, pre, landed)
    requires Enabled(w, step) && Interrupts(step) && !step.Replay?
    ensures Landed(Taken(w, step), next, pre, landed || step.Commit? || step.CommitLost?)
    ensures Untouched(Taken(w, step), next, pre, landed || step.Commit? || step.CommitLost?)
  {
    hide Reconciled, ValidProviders, Offline.Startup, Offline.Configure, Offline.Step;
  }

  lemma {:induction false} UntouchedRun(w: World, next: Config, pre: Settings, landed: bool, steps: seq<Step>)
    requires Landed(w, next, pre, landed) && Untouched(w, next, pre, landed)
    requires Run(w, steps).Some? && Interruption(steps) && !ReplayedIn(steps)
    ensures var after := landed || CommittedIn(steps) || LostIn(steps);
            Landed(Run(w, steps).value, next, pre, after) && Untouched(Run(w, steps).value, next, pre, after)
    decreases |steps|
  {
    hide Landed, Untouched, Taken, Enabled;
    if steps != [] {
      var after := landed || steps[0].Commit? || steps[0].CommitLost?;
      UntouchedKept(w, next, pre, landed, steps[0]);
      UntouchedRun(Taken(w, steps[0]), next, pre, after, steps[1..]);
    }
  }

  /**
   Without edits the file is the prior or the next one, the next one once its commit was
   reported, and replaying it gives what replaying it on the base would.
   */
  predicate Recoverable(w: World, prior: Config, next: Config, pre: Settings, committed: bool, lost: bool) {
    && (w.file == prior || w.file == next)
    && Decided(w.file, SettingsOf(w.store)) == Decided(w.file, Base(next, pre, committed || lost))
    && (w.phase.Opened? || w.phase.Purged? ==> w.phase.loaded == w.file)
    && (w.phase.Prepared? || w.phase.Written? || w.phase.CommitFailed? ==>
          SettingsOf(w.store) == Base(next, pre, lost) && w.phase.prior == prior && !committed)
    && (w.phase.Written? || w.phase.Committed? || committed ==> w.file == next)
  }

  lemma RecoverableKept(
      w: World, prior: Config, next: Config, pre: Settings, committed: bool, lost: bool, step: Step)
    requires Landed(w, next, pre, committed || lost) && Recoverable(w, prior, next, pre, committed, lost)
    requires Enabled(w, step) && Interrupts(step) && !step.Edit?
    ensures Landed(Taken(w, step), next, pre, committed || step.Commit? || lost || step.CommitLost?)
    ensures Recoverable(Taken(w, step), prior, next, pre, committed || step.Commit?, lost || step.CommitLost?)
  {
    hide Reconciled, ValidProviders, Offline.InvalidateSessions, Offline.Step;
    match step {
      case Crash =>
      case Open => DecidedByRegistry(w.file, SettingsOf(w.store), SettingsOf(Taken(w, step).store));
      case Purge(t) => DecidedByRegistry(w.file, SettingsOf(w.store), SettingsOf(Taken(w, step).store));
      case Replay(t) =>
        AppliedDecides(w.file, w.store, t);
        DecidedTwice(w.file, Base(next, pre, committed || lost));
      case WriteFile =>
      case WriteFails =>
      case Commit(t) => AppliedDecides(next, w.store, t);
      case CommitFails =>
      case CommitLost(t) => AppliedDecides(next, w.store, t);
      case Restore =>
      case RestoreFails =>
      case Install =>
      case Serve(op, delay) => ServedSettings(w.store, op, delay);
    }
  }

  lemma {:induction false} RecoverableRun(
      w: World, prior: Config, next: Config, pre: Settings, committed: bool, lost: bool, steps: seq<Step>)
    requires Landed(w, next, pre, committed || lost) && Recoverable(w, prior, next, pre, committed, lost)
    requires Run(w, steps).Some? && Interruption(steps) && !EditedIn(steps)
    ensures Landed(Run(w, steps).value, next, pre, committed || CommittedIn(steps) || lost || LostIn(steps))
    ensures Recoverable(Run(w, steps).value, prior, next, pre, committed || CommittedIn(steps), lost || LostIn(steps))
    decreases |steps|
  {
    hide Landed, Recoverable, Taken, Enabled;
    if steps != [] {
      RecoverableKept(w, prior, next, pre, committed, lost, steps[0]);
      RecoverableRun(Taken(w, steps[0]), prior, next, pre, committed || steps[0].Commit?, lost || steps[0].CommitLost?,
                     steps[1..]);
    }
  }

  lemma {:induction false} RunSplit(w: World, a: seq<Step>, b: seq<Step>)
    requires Run(w, a + b).Some?
    ensures Run(w, a).Some? && Run(Run(w, a).value, b) == Run(w, a + b)
    decreases |a|
  {
    hide Taken, Enabled;
    if a == [] {
      assert a + b == b;
    } else {
      assert (a + b)[1..] == a[1..] + b;
      RunSplit(Taken(w, a[0]), a[1..], b);
    }
  }

  /**
   A publication from `w`, the failures, crashes and edits in `steps`, and a startup that
   completes: the first one, or a later one over a file nobody edits.
   */
  predicate Recovers(w: World, next: Config, steps: seq<Step>, t: int) {
    && w.phase.Running? && Interruption(steps) && !(EditedIn(steps) && ReplayedIn(steps))
    && Run(w, [Begin(next)] + steps + [Replay(t)]).Some?
    && Run(w, [Begin(next)] + steps + [Replay(t)]).value.phase.Running?
  }

  function Recovered(w: World, next: Config, steps: seq<Step>, t: int): World
    requires Recovers(w, next, steps, t)
  {
    Run(w, [Begin(next)] + steps + [Replay(t)]).value
  }

  /** The world that the last startup replays its file in. */
  lemma BeforeReplay(w: World, next: Config, steps: seq<Step>, t: int)
    requires Recovers(w, next, steps, t)
    ensures w.phase.Running? && Enabled(w, Begin(next)) && Run(Taken(w, Begin(next)), steps).Some?
    ensures var before := Run(Taken(w, Begin(next)), steps).value;
            && before.phase.Purged? && Enabled(before, Replay(t)) && ValidConfig(before.phase.loaded)
            && Recovered(w, next, steps, t) == Taken(before, Replay(t))
  {
    hide ValidConfig, Applied, Offline.Startup;
    RunSplit(w, [Begin(next)] + steps, [Replay(t)]);
    RunSplit(w, [Begin(next)], steps);
    var begun := Taken(w, Begin(next));
    assert Run(w, [Begin(next)]) == Some(begun) by {
      assert Run(begun, []) == Some(begun);
    }
    var before := Run(begun, steps).value;
    assert Run(before, [Replay(t)]) == Run(Taken(before, Replay(t)), []);
  }

  /** What a completed startup leaves, in memory, in the store and, if nobody edited it, in the file. */
  lemma RecoveredFromBase(w: World, next: Config, steps: seq<Step>, t: int)
    requires Recovers(w, next, steps, t)
    ensures var end := Recovered(w, next, steps, t);
            && end.active.Some? && ValidConfig(end.active.value) && (LostIn(steps) ==> ValidConfig(next))
            && SettingsOf(end.store)
               == Decided(end.active.value, Base(next, SettingsOf(w.store), CommittedIn(steps) || LostIn(steps)))
            && (!EditedIn(steps) ==>
                  && end.active == Some(end.file) && end.phase == Running(true)
                  && (end.file == w.file || end.file == next) && (CommittedIn(steps) ==> end.file == next))
  {
    var pre, landed := SettingsOf(w.store), CommittedIn(steps) || LostIn(steps);
    var begun := Taken(w, Begin(next));
    BeforeReplay(w, next, steps, t);
    var before := Run(begun, steps).value;
    assert Landed(begun, next, pre, false) && Untouched(begun, next, pre, false);
    assert Recoverable(begun, w.file, next, pre, false, false);
    AppliedDecides(before.phase.loaded, before.store, t);
    hide Run, Reconciled, ValidConfig, Interruption, Applied, Offline.Startup;
    if EditedIn(steps) {
      UntouchedRun(begun, next, pre, false, steps);
      DecidedByRegistry(before.phase.loaded, SettingsOf(before.store), Base(next, pre, landed));
    } else {
      RecoverableRun(begun, w.file, next, pre, false, false, steps);
    }
  }

  /**
   However far a publication got, however often the process crashed and whatever the file
   was edited to since, the startup that completes leaves exactly the settings of the file
   it loaded applied to the database as last reported, if every reply told the truth.
   */
  lemma CrashIsRecovered(w: World, next: Config, steps: seq<Step>, t: int)
    requires Recovers(w, next, steps, t) && !LostIn(steps)
    ensures var end := Recovered(w, next, steps, t);
            && end.active.Some?
            && SettingsOf(end.store) == Decided(end.active.value, Base(next, SettingsOf(w.store), CommittedIn(steps)))
  {
    hide Decided, Recovers, Recovered;
    RecoveredFromBase(w, next, steps, t);
  }

  /** Every provider that only the next configuration names was managed before, with the same details. */
  predicate Carries(prior: Config, next: Config, r: Registry) {
    forall p | p in next.providers && p.id !in Ids(prior.providers) ::
      p.id in r.managed && p.id in r.providers && r.providers[p.id].details == p.details
  }

  /** One publication commits at most once. */
  lemma {:induction false} CommitsOnce(w: World, steps: seq<Step>)
    requires Run(w, steps).Some? && Interruption(steps)
    ensures !w.phase.Prepared? && !w.phase.Written? ==> !CommittedIn(steps) && !LostIn(steps)
    ensures !(CommittedIn(steps) && LostIn(steps))
    decreases |steps|
  {
    hide Applied, ValidConfig, Offline.Startup;
    if steps != [] {
      CommitsOnce(Taken(w, steps[0]), steps[1..]);
    }
  }

  /**
   With lost replies too: startup leaves the settings of the file it loaded applied to the
   database as last reported, if and only if no commit landed unheard under another file, or
   every provider only the published file names was managed before with the same details.
   */
  lemma RecoveredExactly(w: World, next: Config, steps: seq<Step>, t: int)
    requires Recovers(w, next, steps, t) && w.store.registry.managed <= w.store.registry.providers.Keys
    ensures var end := Recovered(w, next, steps, t);
            && end.active.Some?
            && (SettingsOf(end.store) == Decided(end.active.value, Base(next, SettingsOf(w.store), CommittedIn(steps)))
                <==> (LostIn(steps) && end.active.value != next ==>
                        Carries(end.active.value, next, w.store.registry)))
  {
    RecoveredFromBase(w, next, steps, t);
    BeforeReplay(w, next, steps, t);
    CommitsOnce(Taken(w, Begin(next)), steps);
    hide Decided, Recovers, Recovered, Carries, ValidConfig, Run;
    var pre, end := SettingsOf(w.store), Recovered(w, next, steps, t);
    DecidedTwice(next, pre);
    if LostIn(steps) && end.active.value != next {
      LostReplyExactly(end.active.value, next, pre);
    }
  }

  /**
   A configuration that fails validation is never applied: not published, not reloaded, and
   no startup completes with it.
   */
  lemma InvalidIsIgnored(w: World, step: Step)
    requires Enabled(w, step)
    ensures (step.Reload? || step.ReloadLost?) && !ValidConfig(w.file) ==> Taken(w, step) == w
    ensures step.Begin? && !ValidConfig(step.next) ==> Taken(w, step) == w
    ensures step.Replay? && !ValidConfig(w.phase.loaded) ==>
              Taken(w, step).store == w.store && Taken(w, step).phase.Stopped?
  {
    hide ValidConfig;
  }

  // ----- agreement of file, memory and database -----

  /** Memory holds this configuration, and replaying it would change nothing. */
  predicate Settled(w: World, c: Config) {
    w.active == Some(c) && Decided(c, SettingsOf(w.store)) == SettingsOf(w.store)
  }

  /** While the process runs with nothing outstanding, file, memory and database agree. */
  predicate Agreed(w: World) {
    match w.phase
    case Running(agreed) => agreed ==> Settled(w, w.file)
    case Prepared(next, prior, was) => was ==> Settled(w, prior)
    case Written(next, prior, was) => was ==> Settled(w, prior)
    case CommitFailed(prior, was) => was ==> Settled(w, prior)
    case Committed(next) => Decided(next, SettingsOf(w.store)) == SettingsOf(w.store)
    case Stopped => true
    case Opened(loaded) => PolicyOf(w.store, loaded)
    case Purged(loaded) => PolicyOf(w.store, loaded) && w.store.offline.mode == loaded.mode
  }

  /** The moderation policy is in force before any request is served. */
  predicate PolicyOf(s: Store, c: Config) {
    s.blockR18 == c.blockR18 && s.blockUnclassified == c.blockUnclassified
  }

  lemma PurgedMode(db: Tables.Db, mode: Tables.Mode, t: int)
    ensures Offline.Startup(db, mode, t).mode == mode
  {
  }

  lemma AgreedKept(w: World, step: Step)
    requires Agreed(w) && Enabled(w, step)
    ensures Agreed(Taken(w, step))
  {
    hide Reconciled, ValidProviders, Offline.Configure, Offline.Startup, Offline.Step;
    match step {
      case Replay(t) =>
        AppliedDecides(w.phase.loaded, w.store, t);
        DecidedTwice(w.phase.loaded, SettingsOf(w.store));
      case Commit(t) =>
        AppliedDecides(w.phase.next, w.store, t);
        DecidedTwice(w.phase.next, SettingsOf(w.store));
      case Reload(t) =>
        AppliedDecides(w.file, w.store, t);
        DecidedTwice(w.file, SettingsOf(w.store));
      case Crash =>
      case Open =>
      case Purge(t) => PurgedMode(w.store.offline, w.phase.loaded.mode, t);
      case Begin(_) =>
      case WriteFile =>
      case WriteFails =>
      case CommitFails =>
      case CommitLost(_) =>
      case Restore =>
      case RestoreFails =>
      case Install =>
      case ReloadLost(_) =>
      case Edit(_) =>
      case Serve(op, delay) => ServedSettings(w.store, op, delay);
    }
  }

  lemma {:induction false} AgreedAlways(w: World, steps: seq<Step>)
    requires w.phase.Stopped? && Run(w, steps).Some?
    ensures Agreed(Run(w, steps).value)
  {
    AgreedFrom(w, steps);
  }

  lemma {:induction false} AgreedFrom(w: World, steps: seq<Step>)
    requires Agreed(w) && Run(w, steps).Some?
    ensures Agreed(Run(w, steps).value)
    decreases |steps|
  {
    hide Agreed, Taken, Enabled;
    if steps != [] {
      AgreedKept(w, steps[0]);
      AgreedFrom(Taken(w, steps[0]), steps[1..]);
    }
  }

  /**
   A publication that began in agreement is all or nothing: unless the file is edited,
   recovery ends with the old settings or with the new ones, in file, memory and database.
   */
  lemma RecoveryIsAllOrNothing(w: World, next: Config, steps: seq<Step>, t: int)
    requires Recovers(w, next, steps, t) && !LostIn(steps) && !EditedIn(steps)
    requires w.phase == Running(true) && Agreed(w)
    ensures var end := Recovered(w, next, steps, t);
            && end.active == Some(end.file)
            && (|| (end.file == w.file && SettingsOf(end.store) == SettingsOf(w.store))
                || (end.file == next && SettingsOf(end.store) == Decided(next, SettingsOf(w.store))))
  {
    hide Decided, Recovers, Recovered;
    RecoveredFromBase(w, next, steps, t);
    DecidedTwice(next, SettingsOf(w.store));
  }

  // ----- a commit whose reply is lost -----

  /**
   Replaying the prior configuration over the next one is replaying it on the settings
   before, exactly when they carry over.
   */
  lemma LostReplyExactly(prior: Config, next: Config, pre: Settings)
    requires ValidConfig(prior) && ValidConfig(next) && pre.registry.managed <= pre.registry.providers.Keys
    ensures Decided(prior, Decided(next, pre)) == Decided(prior, pre) <==> Carries(prior, next, pre.registry)
  {
    hide ValidProviders, Wanted;
    var r := pre.registry;
    var after := Reconciled(Reconciled(r, next.providers), prior.providers);
    forall p | p in next.providers && p.id !in Ids(prior.providers)
      ensures p.id in after.managed && p.id in after.providers && after.providers[p.id] == Provider(p.details, false)
    {
      NewProviderAfter(prior, next, r, p);
    }
    if Carries(prior, next, r) {
      forall id | id in Ids(next.providers) && id !in Ids(prior.providers)
        ensures id in r.managed && id in after.providers && after.providers[id] == r.providers[id].(enabled := false)
      {
        var p :| p in next.providers && p.id == id;
      }
      SameRegistry(prior, next, r);
    }
  }

  /** A first provider, published to an empty registry, with the reply of its commit lost and the old file put back. */
  const EMPTY_FILE := Config([], false, false, Tables.ModeDisabled, true)

  const FIRST_FILE := Config([Configured("x", 1, true, true)], false, false, Tables.ModeDisabled, true)

  const LOST_STEPS := [WriteFile, CommitLost(0), Restore, Crash, Open, Purge(0)]

  function EmptyWorld(): World {
    World(EMPTY_FILE, Store(Registry(map[], {}), false, false, Offline.Fresh(0)), Some(EMPTY_FILE), Running(true))
  }

  /** After the restart the provider is still registered, though no file on disk names it and none ever applied did. */
  lemma LostReplyLeavesProvider()
    ensures Recovers(EmptyWorld(), FIRST_FILE, LOST_STEPS, 0)
    ensures var end := Recovered(EmptyWorld(), FIRST_FILE, LOST_STEPS, 0);
            && end.file == EMPTY_FILE && "x" in end.store.registry.managed
            && SettingsOf(end.store) != Decided(EMPTY_FILE, SettingsOf(EmptyWorld().store))
  {
    var w := EmptyWorld();
    LostStepsRun();
    RecoveredExactly(w, FIRST_FILE, LOST_STEPS, 0);
    assert LostIn(LOST_STEPS) by {
      assert LOST_STEPS[1..][0].CommitLost?;
    }
    var p := FIRST_FILE.providers[0];
    assert p in FIRST_FILE.providers && p.id !in Ids(EMPTY_FILE.providers);
    RecoveredFromBase(w, FIRST_FILE, LOST_STEPS, 0);
    NewProviderAfter(EMPTY_FILE, FIRST_FILE, w.store.registry, p);
  }

  lemma RunNext(w: World, step: Step, rest: seq<Step>)
    requires Enabled(w, step)
    ensures Run(w, [step] + rest) == Run(Taken(w, step), rest)
  {
    hide Enabled, Taken;
    assert ([step] + rest)[1..] == rest;
  }

  /** From a first provider's publication whose commit lands unheard to a running process. */
  lemma LostStepsEnd(w: World, rest: seq<Step>)
    requires w.phase.Written? && w.phase.prior == EMPTY_FILE && ValidConfig(EMPTY_FILE)
    requires rest == [CommitLost(0)] + ([Restore] + ([Crash] + ([Open] + ([Purge(0)] + ([Replay(0)] + [])))))
    ensures Run(w, rest).Some? && Run(w, rest).value.phase.Running? && Run(w, rest).value.file == EMPTY_FILE
  {
    hide Run, Applied, Offline.Startup, ValidConfig;
    var w3 := Taken(w, CommitLost(0));
    var w4 := Taken(w3, Restore);
    var w5 := Taken(w4, Crash);
    var w6 := Taken(w5, Open);
    var w7 := Taken(w6, Purge(0));
    var w8 := Taken(w7, Replay(0));
    RunNext(w, CommitLost(0), [Restore] + ([Crash] + ([Open] + ([Purge(0)] + ([Replay(0)] + [])))));
    RunNext(w3, Restore, [Crash] + ([Open] + ([Purge(0)] + ([Replay(0)] + []))));
    RunNext(w4, Crash, [Open] + ([Purge(0)] + ([Replay(0)] + [])));
    RunNext(w5, Open, [Purge(0)] + ([Replay(0)] + []));
    RunNext(w6, Purge(0), [Replay(0)] + []);
    RunNext(w7, Replay(0), []);
    RunEmpty(w8);
  }

  lemma RunEmpty(w: World)
    ensures Run(w, []) == Some(w)
  {
  }

  lemma LostStepsRun()
    ensures Recovers(EmptyWorld(), FIRST_FILE, LOST_STEPS, 0)
            && Recovered(EmptyWorld(), FIRST_FILE, LOST_STEPS, 0).file == EMPTY_FILE
  {
    assert ValidConfig(FIRST_FILE) && ValidConfig(EMPTY_FILE) by {
      assert "x" != OFFICIAL;
    }
    hide Run, Applied, Offline.Startup, ValidConfig;
    var w0 := EmptyWorld();
    var w1 := Taken(w0, Begin(FIRST_FILE));
    var w2 := Taken(w1, WriteFile);
    var rest := [CommitLost(0)] + ([Restore] + ([Crash] + ([Open] + ([Purge(0)] + ([Replay(0)] + [])))));
    RunNext(w0, Begin(FIRST_FILE), [WriteFile] + rest);
    RunNext(w1, WriteFile, rest);
    LostStepsEnd(w2, rest);
    assert [Begin(FIRST_FILE)] + LOST_STEPS + [Replay(0)] == [Begin(FIRST_FILE)] + ([WriteFile] + rest);
  }

  lemma NewProviderAfter(prior: Config, next: Config, r: Registry, p: Configured)
    requires ValidConfig(next) && p in next.providers && p.id !in Ids(prior.providers)
    ensures var after := Reconciled(Reconciled(r, next.providers), prior.providers);
            p.id in after.managed && p.id in after.providers && after.providers[p.id] == Provider(p.details, false)
  {
    assert p.id in Ids(next.providers) && p.id != OFFICIAL;
    WantedIs(next.providers, p.id);
    hide Wanted;
  }

  lemma SameRegistry(prior: Config, next: Config, r: Registry)
    requires ValidConfig(next) && r.managed <= r.providers.Keys
    requires forall id | id in Ids(next.providers) && id !in Ids(prior.providers) ::
               id in r.managed && Reconciled(Reconciled(r, next.providers), prior.providers).providers[id]
                   == r.providers[id].(enabled := false)
    ensures Reconciled(Reconciled(r, next.providers), prior.providers) == Reconciled(r, prior.providers)
  {
    var after := Reconciled(Reconciled(r, next.providers), prior.providers);
    var straight := Reconciled(r, prior.providers);
    OfficialUnnamed(next);
    hide Wanted, Ids;
    assert after.managed == straight.managed;
    assert after.providers.Keys == straight.providers.Keys;
    forall id | id in after.providers ensures after.providers[id] == straight.providers[id] {
    }
  }

  lemma OfficialUnnamed(c: Config)
    requires ValidConfig(c)
    ensures OFFICIAL !in Ids(c.providers)
  {
  }
}
