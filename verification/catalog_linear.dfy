/**
 Catalog requests, writers and the shared page cache as interleaved steps. Reading the
 change counter, looking a page up, rechecking, loading and storing are separate steps,
 a writer's statements are steps under the connection's lock, and yet every page returned
 is the page of one moment of its own request.
 */
module CatalogLinear {
  import opened Outcomes
  import opened CatalogMemory
  import opened CatalogPages
  import opened CatalogRevalidation

  /** What the key is hashed from; the hash is taken to be injective. */
  datatype Key = Key(request: Request, epoch: nat)

  /** The database at one moment, with the connection's change counter. */
  datatype Moment = Moment(tables: Tables, changes: nat)

  /** Who holds the lock to write: the tables it sees, what a rollback restores, and whether a transaction is open. */
  datatype Writer = Writer(tables: Tables, saved: Tables, changes: nat, open: bool)

  datatype Call =
    | Started(request: Request, cache: nat, start: nat)
    | EpochRead(request: Request, cache: nat, start: nat, epoch: nat, read: nat)
    | PageFound(request: Request, cache: nat, start: nat, epoch: nat, read: nat, page: Page)
    | Missed(request: Request, cache: nat, start: nat, epoch: nat, read: nat)
    | Loaded(request: Request, cache: nat, start: nat, epoch: nat, page: Page)
    | Returned(request: Request, start: nat, end: nat, page: Page, cached: bool)

  /**
   Every step adds a moment, the last one being the present; while a writer holds the lock
   it is what the writer found. A changed cache configuration installs a new cache, and
   calls keep the one they took.
   */
  datatype State = State(
    moments: seq<Moment>,
    caches: seq<seq<Stored<Key, Page>>>,
    calls: map<nat, Call>,
    writer: Option<Writer>)

  datatype Step =
    | Begin(call: nat, request: Request)
    | ReadEpoch(call: nat)
    | Lookup(call: nat, clock: seq<int>)
    | Recheck(call: nat)
    | Load(call: nat)
    | Store(call: nat, clock: seq<int>, expires: int, bytes: nat, max: nat)
    | Lock
    | BeginTransaction
    | Execute(tables: Tables, rows: nat)
    | Commit
    | CommitFails(landed: bool)
    | Rollback(reported: bool)
    | Unlock
    | Install

  ghost predicate Initial(s: State) {
    |s.moments| == 1 && s.caches == [[]] && s.calls == map[] && s.writer.None?
  }

  /** A request as the handler makes it: the limit is clamped to 1..80. */
  predicate WellFormed(r: Request) {
    1 <= r.limit <= MAX_ENTRIES
  }

  /** The call takes its next step, or the writer does. */
  predicate Enabled(s: State, step: Step)
    requires s.moments != [] && s.caches != []
  {
    match step
    case Begin(c, r) => c !in s.calls && WellFormed(r)
    case ReadEpoch(c) => c in s.calls && s.calls[c].Started? && s.writer.None?
    // Both read the clock once for every entry of the cache.
    case Lookup(c, clock) =>
      c in s.calls && s.calls[c].EpochRead? && s.calls[c].cache < |s.caches| && |clock| == |s.caches[s.calls[c].cache]|
    case Recheck(c) => c in s.calls && s.calls[c].PageFound? && s.writer.None?
    case Load(c) => c in s.calls && s.calls[c].Missed? && s.calls[c].request.limit > 0 && s.writer.None?
    case Store(c, clock, _, _, _) =>
      c in s.calls && s.calls[c].Loaded? && s.calls[c].cache < |s.caches| && |clock| == |s.caches[s.calls[c].cache]|
    case Lock => s.writer.None?
    case BeginTransaction => s.writer.Some? && !s.writer.value.open
    // A statement that changes the tables reports at least one row.
    case Execute(tables, rows) => s.writer.Some? && (tables != s.writer.value.tables ==> rows > 0)
    case Commit => s.writer.Some? && s.writer.value.open
    case CommitFails(_) => s.writer.Some? && s.writer.value.open
    case Rollback(_) => s.writer.Some? && s.writer.value.open
    case Unlock => s.writer.Some? && !s.writer.value.open
    case Install => true
  }

  ghost function Taken(s: State, step: Step): State
    requires s.moments != [] && s.caches != [] && Enabled(s, step)
  {
    var last := s.moments[|s.moments| - 1];
    var now := |s.moments|;
    var t := s.(moments := s.moments + [last]);
    match step
    case Begin(c, r) =>
      t.(calls := s.calls[c := Started(r, |s.caches| - 1, now)])
    case ReadEpoch(c) =>
      var call := s.calls[c];
      t.(calls := s.calls[c := EpochRead(call.request, call.cache, call.start, last.changes, now)])
    case Lookup(c, clock) =>
      var call := s.calls[c];
      var key := Key(call.request, call.epoch);
      var found := Found(s.caches[call.cache], key, clock);
      t.(caches := s.caches[call.cache := AfterGet(s.caches[call.cache], key, clock)],
         calls := s.calls[c := if found.Some?
                               then PageFound(call.request, call.cache, call.start, call.epoch, call.read,
                                              found.value.value)
                               else Missed(call.request, call.cache, call.start, call.epoch, call.read)])
    case Recheck(c) =>
      var call := s.calls[c];
      var current := |call.page.entries| <= MAX_ENTRIES
                     && IsCurrent(last.tables, call.request.account, call.request.scope, AsCached(call.page));
      t.(calls := s.calls[c := if current then Returned(call.request, call.start, now, call.page, true)
                               else Missed(call.request, call.cache, call.start, call.epoch, call.read)])
    case Load(c) =>
      var call := s.calls[c];
      t.(calls :=
         s.calls[c := Loaded(call.request, call.cache, call.start, call.epoch, LoadPage(last.tables, call.request))])
    case Store(c, clock, expires, bytes, max) =>
      var call := s.calls[c];
      var e := Stored(Key(call.request, call.epoch), call.page, expires);
      t.(caches := if bytes > MAX_BODY then s.caches
                   else s.caches[call.cache := AfterPut(s.caches[call.cache], e, clock, max)],
         calls := s.calls[c := Returned(call.request, call.start, now, call.page, false)])
    case Lock =>
      t.(writer := Some(Writer(last.tables, last.tables, last.changes, false)))
    case BeginTransaction => t.(writer := Some(Begun(s.writer.value)))
    case Execute(tables, rows) =>
      var w := s.writer.value;
      t.(writer := Some(w.(tables := tables, changes := w.changes + rows)))
    case Commit =>
      var w := s.writer.value;
      t.(writer := Some(w.(open := false, changes := w.changes + 1)))
    // The transaction's end rolls back, which undoes nothing if the commit has landed.
    case CommitFails(landed) =>
      var w := s.writer.value;
      t.(writer := Some(if landed then w.(saved := w.tables) else w))
    case Rollback(reported) =>
      var w := s.writer.value;
      t.(writer := Some(w.(tables := w.saved, open := false, changes := w.changes + if reported then 1 else 0)))
    case Unlock =>
      s.(moments := s.moments + [Moment(s.writer.value.tables, s.writer.value.changes)], writer := None)
    case Install =>
      t.(caches := s.caches + [[]])
  }

  function Begun(w: Writer): Writer {
    w.(saved := w.tables, open := true, changes := w.changes + 1)
  }

  /** A run from an initial state to `s`. */
  ghost predicate Reaches(first: State, steps: seq<Step>, s: State)
    decreases |steps|
  {
    if steps == [] then s == first
    else exists before ::
      && Reaches(first, steps[..|steps| - 1], before)
      && before.moments != [] && before.caches != []
      && Enabled(before, steps[|steps| - 1]) && s == Taken(before, steps[|steps| - 1])
  }

  // ----- the invariant -----

  /** The page is the direct answer at moment `m`. */
  ghost predicate PageAt(moments: seq<Moment>, m: nat, r: Request, page: Page) {
    m < |moments| && r.limit > 0 && page == LoadPage(moments[m].tables, r)
  }

  /** The counter never falls, and while it stands still so does the database. */
  ghost predicate Counted(moments: seq<Moment>) {
    forall i, j | 0 <= i <= j < |moments| ::
      moments[i].changes <= moments[j].changes
          && (moments[i].changes == moments[j].changes ==> moments[i].tables == moments[j].tables)
  }

  /** A stored page was loaded at some moment whose counter had reached the epoch of its key. */
  ghost predicate Justified(moments: seq<Moment>, key: Key, page: Page) {
    exists m: nat :: PageAt(moments, m, key.request, page) && moments[m].changes >= key.epoch
  }

  ghost predicate CacheSound(moments: seq<Moment>, pages: seq<Stored<Key, Page>>) {
    forall e | e in pages :: Justified(moments, e.key, e.value)
  }

  /** The page is the direct answer at some moment between `from` and `to`. */
  ghost predicate Answered(moments: seq<Moment>, from: nat, to: nat, r: Request, page: Page) {
    exists m :: from <= m <= to && PageAt(moments, m, r, page)
  }

  ghost predicate EpochAt(moments: seq<Moment>, start: nat, read: nat, epoch: nat) {
    start <= read < |moments| && moments[read].changes == epoch
  }

  ghost predicate CallSound(moments: seq<Moment>, caches: nat, call: Call) {
    match call
    case Started(r, cache, start) => WellFormed(r) && cache < caches && start < |moments|
    case EpochRead(r, cache, start, epoch, read) =>
      WellFormed(r) && cache < caches && EpochAt(moments, start, read, epoch)
    case PageFound(r, cache, start, epoch, read, page) =>
      WellFormed(r) && cache < caches && EpochAt(moments, start, read, epoch)
          && Answered(moments, start, |moments| - 1, r, page)
    case Missed(r, cache, start, epoch, read) => WellFormed(r) && cache < caches && EpochAt(moments, start, read, epoch)
    case Loaded(r, cache, start, epoch, page) =>
      WellFormed(r) && cache < caches && start < |moments| && Answered(moments, start, |moments| - 1, r, page)
      && Justified(moments, Key(r, epoch), page)
    case Returned(r, start, end, page, cached) =>
      end < |moments| && Answered(moments, start, end, r, page)
      && (cached ==> IsCurrent(moments[end].tables, r.account, r.scope, AsCached(page)))
  }

  /** What the writer leaves behind at any time has been counted. */
  predicate WriterSound(last: Moment, w: Writer) {
    && last.changes <= w.changes
    && (w.tables != last.tables ==> last.changes < w.changes)
    && (w.open ==> last.changes < w.changes)
  }

  ghost predicate Inv(s: State) {
    && s.moments != [] && s.caches != [] && Counted(s.moments)
    && (s.writer.Some? ==> WriterSound(s.moments[|s.moments| - 1], s.writer.value))
    && (forall i | 0 <= i < |s.caches| :: CacheSound(s.moments, s.caches[i]))
    && (forall c | c in s.calls :: CallSound(s.moments, |s.caches|, s.calls[c]))
  }

  // ----- later moments keep what was established -----

  lemma AnsweredLater(moments: seq<Moment>, m: Moment, from: nat, to: nat, later: nat, r: Request, page: Page)
    requires Answered(moments, from, to, r, page) && to <= later
    ensures Answered(moments + [m], from, later, r, page)
  {
    hide LoadPage;
    var k :| from <= k <= to && PageAt(moments, k, r, page);
    assert PageAt(moments + [m], k, r, page);
  }

  lemma JustifiedLater(moments: seq<Moment>, m: Moment, key: Key, page: Page)
    requires Justified(moments, key, page)
    ensures Justified(moments + [m], key, page)
  {
    hide LoadPage;
    var k: nat :| PageAt(moments, k, key.request, page) && moments[k].changes >= key.epoch;
    assert PageAt(moments + [m], k, key.request, page);
  }

  lemma CacheLater(moments: seq<Moment>, m: Moment, pages: seq<Stored<Key, Page>>)
    requires CacheSound(moments, pages)
    ensures CacheSound(moments + [m], pages)
  {
    hide Justified;
    forall e | e in pages ensures Justified(moments + [m], e.key, e.value) {
      JustifiedLater(moments, m, e.key, e.value);
    }
  }

  lemma CallLater(moments: seq<Moment>, m: Moment, caches: nat, more: nat, call: Call)
    requires CallSound(moments, caches, call) && caches <= more
    ensures CallSound(moments + [m], more, call)
  {
    hide Answered, Justified;
    match call {
      case Started(_, _, _) =>
      case EpochRead(_, _, _, _, _) =>
      case PageFound(r, _, start, _, _, page) => AnsweredLater(moments, m, start, |moments| - 1, |moments|, r, page);
      case Missed(_, _, _, _, _) =>
      case Loaded(r, _, start, epoch, page) =>
        AnsweredLater(moments, m, start, |moments| - 1, |moments|, r, page);
        JustifiedLater(moments, m, Key(r, epoch), page);
      case Returned(r, start, end, page, _) => AnsweredLater(moments, m, start, end, end, r, page);
    }
  }

  lemma CountedLater(moments: seq<Moment>, m: Moment)
    requires moments != [] && Counted(moments)
    requires m.changes >= moments[|moments| - 1].changes
    requires m.tables != moments[|moments| - 1].tables ==> m.changes > moments[|moments| - 1].changes
    ensures Counted(moments + [m])
  {
    var q := moments + [m];
    var last := |moments| - 1;
    forall i, j | 0 <= i <= j < |q|
      ensures q[i].changes <= q[j].changes && (q[i].changes == q[j].changes ==> q[i].tables == q[j].tables)
    {
      assert i <= last ==> q[i].changes <= q[last].changes;
    }
  }

  // ----- the steps -----

  /**
   A page found under the epoch just read. If it was loaded after the epoch was read, it
   was loaded during the request; if before, the counter shows that nothing has changed
   between the two.
   */
  lemma FoundPageIsAnswer(moments: seq<Moment>, start: nat, read: nat, epoch: nat, r: Request, page: Page)
    requires Counted(moments) && EpochAt(moments, start, read, epoch) && Justified(moments, Key(r, epoch), page)
    ensures Answered(moments, start, |moments| - 1, r, page)
  {
    hide LoadPage;
    var m: nat :| PageAt(moments, m, r, page) && moments[m].changes >= epoch;
    if m < read {
      assert moments[m].changes <= moments[read].changes;
      assert PageAt(moments, read, r, page);
    }
  }

  /** A page loaded now answers the request, and may be stored under the epoch read before. */
  lemma LoadedPageIsAnswer(moments: seq<Moment>, start: nat, read: nat, epoch: nat, r: Request)
    requires Counted(moments) && EpochAt(moments, start, read, epoch) && r.limit > 0
    ensures var page := LoadPage(moments[|moments| - 1].tables, r);
            Answered(moments, start, |moments| - 1, r, page) && Justified(moments, Key(r, epoch), page)
  {
    hide LoadPage;
    assert PageAt(moments, |moments| - 1, r, LoadPage(moments[|moments| - 1].tables, r));
  }

  lemma GetKeepsCache(moments: seq<Moment>, pages: seq<Stored<Key, Page>>, key: Key, clock: seq<int>)
    requires CacheSound(moments, pages) && |clock| == |pages|
    ensures CacheSound(moments, AfterGet(pages, key, clock))
    ensures var found := Found(pages, key, clock);
            found.Some? ==> found.value.key == key && Justified(moments, key, found.value.value)
  {
    hide Justified, Kept;
    KeptMembers(pages, None, clock);
    KeptMembers(pages, Some(key), clock);
    var live := Kept(pages, None, clock);
    var at := Position(live, key);
    if at.Some? {
      assert live[at.value] in live;
    }
  }

  lemma PutKeepsCache(moments: seq<Moment>, pages: seq<Stored<Key, Page>>, e: Stored<Key, Page>, clock: seq<int>,
                      max: nat)
    requires |clock| == |pages| && CacheSound(moments, pages) && Justified(moments, e.key, e.value)
    ensures CacheSound(moments, AfterPut(pages, e, clock, max))
  {
    hide Justified, Kept;
    KeptMembers(pages, Some(e.key), clock);
    var all := Kept(pages, Some(e.key), clock) + [e];
    forall x | x in Last(all, max) ensures x in all {
    }
  }

  /** All that a step does not touch stays sound at the new moment. */
  lemma RestLater(s: State, m: Moment, more: nat)
    requires Inv(s) && |s.caches| <= more
    requires m.changes >= s.moments[|s.moments| - 1].changes
    requires m.tables != s.moments[|s.moments| - 1].tables ==> m.changes > s.moments[|s.moments| - 1].changes
    ensures Counted(s.moments + [m])
    ensures forall i | 0 <= i < |s.caches| :: CacheSound(s.moments + [m], s.caches[i])
    ensures forall c | c in s.calls :: CallSound(s.moments + [m], more, s.calls[c])
  {
    hide CacheSound, CallSound, Counted;
    CountedLater(s.moments, m);
    forall i | 0 <= i < |s.caches| ensures CacheSound(s.moments + [m], s.caches[i]) {
      CacheLater(s.moments, m, s.caches[i]);
    }
    forall c | c in s.calls ensures CallSound(s.moments + [m], more, s.calls[c]) {
      CallLater(s.moments, m, |s.caches|, more, s.calls[c]);
    }
  }

  predicate WriterStep(step: Step) {
    step.Lock? || step.BeginTransaction? || step.Execute? || step.Commit? || step.CommitFails? || step.Rollback?
    || step.Unlock?
  }

  lemma WriterStepKeepsInv(s: State, step: Step)
    requires Inv(s) && Enabled(s, step) && WriterStep(step)
    ensures Inv(Taken(s, step))
  {
    hide Counted, CacheSound, CallSound, LoadPage, IsCurrent, AfterGet, AfterPut, Found;
    var last := s.moments[|s.moments| - 1];
    if step.Unlock? {
      RestLater(s, Moment(s.writer.value.tables, s.writer.value.changes), |s.caches|);
    } else {
      RestLater(s, last, |s.caches|);
    }
  }

  lemma StepKeepsInv(s: State, step: Step)
    requires Inv(s) && Enabled(s, step)
    ensures Inv(Taken(s, step))
  {
    hide Counted, CacheSound, LoadPage, IsCurrent, AfterGet, AfterPut, Found, Answered, Justified;
    var last := s.moments[|s.moments| - 1];
    var moments := s.moments + [last];
    match step {
      case Begin(c, r) =>
        RestLater(s, last, |s.caches|);
      case ReadEpoch(c) =>
        RestLater(s, last, |s.caches|);
      case Lookup(c, clock) =>
        RestLater(s, last, |s.caches|);
        var call := s.calls[c];
        var key := Key(call.request, call.epoch);
        GetKeepsCache(moments, s.caches[call.cache], key, clock);
        assert CallSound(moments, |s.caches|, call);
        var found := Found(s.caches[call.cache], key, clock);
        if found.Some? {
          FoundPageIsAnswer(moments, call.start, call.read, call.epoch, call.request, found.value.value);
        }
      case Recheck(c) =>
        RestLater(s, last, |s.caches|);
        assert CallSound(moments, |s.caches|, s.calls[c]);
      case Load(c) =>
        RestLater(s, last, |s.caches|);
        var call := s.calls[c];
        assert CallSound(moments, |s.caches|, call);
        LoadedPageIsAnswer(moments, call.start, call.read, call.epoch, call.request);
      case Store(c, clock, expires, bytes, max) =>
        RestLater(s, last, |s.caches|);
        var call := s.calls[c];
        assert CallSound(moments, |s.caches|, call);
        PutKeepsCache(moments, s.caches[call.cache], Stored(Key(call.request, call.epoch), call.page, expires), clock,
                      max);
      case Lock => WriterStepKeepsInv(s, step);
      case BeginTransaction => WriterStepKeepsInv(s, step);
      case Execute(_, _) => WriterStepKeepsInv(s, step);
      case Commit => WriterStepKeepsInv(s, step);
      case CommitFails(_) => WriterStepKeepsInv(s, step);
      case Rollback(_) => WriterStepKeepsInv(s, step);
      case Unlock => WriterStepKeepsInv(s, step);
      case Install =>
        RestLater(s, last, |s.caches| + 1);
        EmptySound(moments);
    }
  }

  lemma EmptySound(moments: seq<Moment>)
    ensures CacheSound(moments, [])
  {
  }

  lemma {:induction false} RunKeepsInv(first: State, steps: seq<Step>, s: State)
    requires Initial(first) && Reaches(first, steps, s)
    ensures Inv(s)
    decreases |steps|
  {
    hide Enabled, Taken;
    if steps != [] {
      var before :| Reaches(first, steps[..|steps| - 1], before) && before.moments != [] && before.caches != []
        && Enabled(before, steps[|steps| - 1]) && s == Taken(before, steps[|steps| - 1]);
      RunKeepsInv(first, steps[..|steps| - 1], before);
      StepKeepsInv(before, steps[|steps| - 1]);
    }
  }

  /**
   Between any two moments of a run at which no writer is halfway, different tables mean
   that the counter has risen, whatever committed, failed or was rolled back in between.
   */
  lemma ChangesAreCounted(first: State, steps: seq<Step>, s: State, i: nat, j: nat)
    requires Initial(first) && Reaches(first, steps, s) && i <= j < |s.moments|
    requires s.moments[i].tables != s.moments[j].tables
    ensures s.moments[i].changes < s.moments[j].changes
  {
    RunKeepsInv(first, steps, s);
  }

  /** A page that comes from the cache is current when it is returned: each entry is the row of that moment. */
  lemma CachedIsCurrent(first: State, steps: seq<Step>, s: State, c: nat)
    requires Initial(first) && Reaches(first, steps, s) && c in s.calls && s.calls[c].Returned? && s.calls[c].cached
    ensures var call := s.calls[c];
            && call.end < |s.moments|
            && IsCurrent(s.moments[call.end].tables, call.request.account, call.request.scope, AsCached(call.page))
  {
    hide LoadPage, IsCurrent;
    RunKeepsInv(first, steps, s);
    assert CallSound(s.moments, |s.caches|, s.calls[c]);
  }

  /**
   Whatever the interleaving, a returned page is the direct answer at a moment between the
   request's start and end.
   */
  lemma Linearizable(first: State, steps: seq<Step>, s: State, c: nat)
    requires Initial(first) && Reaches(first, steps, s) && c in s.calls && s.calls[c].Returned?
    ensures var call := s.calls[c];
            exists m :: call.start <= m <= call.end < |s.moments| && call.request.limit > 0
                        && call.page == LoadPage(s.moments[m].tables, call.request)
  {
    hide LoadPage;
    RunKeepsInv(first, steps, s);
    var call := s.calls[c];
    assert CallSound(s.moments, |s.caches|, call);
    var m :| call.start <= m <= call.end && PageAt(s.moments, m, call.request, call.page);
  }
}
