/**
 The in-memory limiter in front of issuance and activation: one queue of
 admission times per account and kind of request. A request reads the clock before it
 takes the lock, so readings may arrive in any order.
 */
module RequestLimiter {
  import opened FiniteSets
  import opened Outcomes

  const MAX_BUCKETS := 4096

  datatype Bucket = Bucket(account: nat, issuance: bool) {
    function Window(): int {
      if issuance then 3_600_000 else 60_000
    }
  }

  function Retain(times: seq<int>, now: int, window: int): seq<int> {
    if times == [] then []
    else (if now - times[0] < window then [times[0]] else []) + Retain(times[1..], now, window)
  }

  function Pruned(attempts: map<Bucket, seq<int>>, now: int): map<Bucket, seq<int>> {
    map b | b in attempts && Retain(attempts[b], now, b.Window()) != [] :: Retain(attempts[b], now, b.Window())
  }

  function Queue(attempts: map<Bucket, seq<int>>, bucket: Bucket): seq<int> {
    if bucket in attempts then attempts[bucket] else []
  }

  // ----- the log of calls -----

  /** A call that held the lock, with the reading it brought. */
  datatype Call = Call(bucket: Bucket, now: int, admitted: bool)

  /** The readings at which `bucket` was admitted, in the order of the calls. */
  ghost function TimesOf(calls: seq<Call>, bucket: Bucket): seq<int> {
    if calls == [] then []
    else
      var last := calls[|calls| - 1];
      TimesOf(calls[..|calls| - 1], bucket) + (if last.admitted && last.bucket == bucket then [last.now] else [])
  }

  /** What is left of them when every call forgets what its own reading puts outside the window. */
  ghost function Remembered(calls: seq<Call>, bucket: Bucket): seq<int> {
    if calls == [] then []
    else
      var last := calls[|calls| - 1];
      Retain(Remembered(calls[..|calls| - 1], bucket), last.now, bucket.Window())
      + (if last.admitted && last.bucket == bucket then [last.now] else [])
  }

  /** An admission inside the window that ends at `now` was followed by a reading beyond its own window. */
  ghost predicate Overtaken(calls: seq<Call>, bucket: Bucket, now: int) {
    exists i, j :: 0 <= i < j < |calls| && Overtakes(calls[i], calls[j], bucket, now)
  }

  predicate Overtakes(first: Call, second: Call, bucket: Bucket, now: int) {
    first.admitted && first.bucket == bucket && now - first.now < bucket.Window() <= second.now - first.now
  }

  predicate AdmittedAt(call: Call, bucket: Bucket, x: int) {
    call.admitted && call.bucket == bucket && call.now == x
  }

  /** How many of `times` lie in the window of length `window` that ends at `end`. */
  ghost function CountIn(times: seq<int>, end: int, window: int): nat {
    if times == [] then 0
    else (if end - window < times[0] <= end then 1 else 0) + CountIn(times[1..], end, window)
  }

  // ----- retaining -----

  lemma {:induction false} RetainAppend(a: seq<int>, b: seq<int>, now: int, window: int)
    ensures Retain(a + b, now, window) == Retain(a, now, window) + Retain(b, now, window)
  {
    if a == [] {
      assert a + b == b;
    } else {
      assert (a + b)[1..] == a[1..] + b;
      RetainAppend(a[1..], b, now, window);
    }
  }

  lemma {:induction false} RetainMembers(times: seq<int>, now: int, window: int)
    ensures forall x :: x in Retain(times, now, window) <==> x in times && now - x < window
  {
    if times != [] {
      RetainMembers(times[1..], now, window);
      assert times == [times[0]] + times[1..];
    }
  }

  lemma {:induction false} CountAppend(a: seq<int>, b: seq<int>, end: int, window: int)
    ensures CountIn(a + b, end, window) == CountIn(a, end, window) + CountIn(b, end, window)
  {
    if a == [] {
      assert a + b == b;
    } else {
      assert (a + b)[1..] == a[1..] + b;
      CountAppend(a[1..], b, end, window);
    }
  }

  lemma {:induction false} CountRetained(times: seq<int>, now: int, end: int, window: int)
    requires now <= end
    ensures CountIn(times, end, window) <= |Retain(times, now, window)|
  {
    if times != [] {
      CountRetained(times[1..], now, end, window);
    }
  }

  /** `x` is outside the window at the first reading and inside it at the second. */
  predicate Lost(x: int, first: int, second: int, window: int) {
    second - x < window <= first - x
  }

  ghost predicate LosesNone(times: seq<int>, first: int, second: int, window: int) {
    forall x | x in times :: !Lost(x, first, second, window)
  }

  /**
   Forgetting at one reading and then at another loses something the second would keep
   exactly when a time lies between the two windows.
   */
  lemma {:induction false} RetainTwice(times: seq<int>, first: int, second: int, window: int)
    ensures |Retain(Retain(times, first, window), second, window)| <= |Retain(times, second, window)|
    ensures |Retain(Retain(times, first, window), second, window)| == |Retain(times, second, window)|
            <==> Retain(Retain(times, first, window), second, window) == Retain(times, second, window)
    ensures Retain(Retain(times, first, window), second, window) == Retain(times, second, window)
            <==> LosesNone(times, first, second, window)
  {
    if times != [] {
      var x, rest := times[0], times[1..];
      RetainTwice(rest, first, second, window);
      var head := if first - x < window then [x] else [];
      RetainAppend(head, Retain(rest, first, window), second, window);
      assert Retain([x], second, window) == if second - x < window then [x] else [] by {
        assert [x][1..] == [];
      }
      assert times == [x] + rest;
      assert LosesNone(times, first, second, window)
             <==> !Lost(x, first, second, window) && LosesNone(rest, first, second, window) by {
        assert forall y :: y in times <==> y == x || y in rest;
      }
      RetainTwiceHead(x, Retain(Retain(rest, first, window), second, window), Retain(rest, second, window), first,
                      second, window);
    }
  }

  /** One more time in front: kept by both, dropped by both, or the loss itself. */
  lemma RetainTwiceHead(x: int, a: seq<int>, b: seq<int>, first: int, second: int, window: int)
    requires |a| <= |b| && (|a| == |b| <==> a == b)
    ensures var lost := Lost(x, first, second, window);
            var twice := (if first - x < window && second - x < window then [x] else []) + a;
            var once := (if second - x < window then [x] else []) + b;
            && |twice| <= |once| && (|twice| == |once| <==> twice == once) && (twice == once <==> a == b && !lost)
  {
    if second - x < window && first - x < window && [x] + a == [x] + b {
      assert a == ([x] + a)[1..] && b == ([x] + b)[1..];
    }
  }

  /**
   A wider window at an earlier forgetting loses nothing of a narrower one, if the first
   reading is not too far ahead.
   */
  lemma {:induction false} RetainWider(times: seq<int>, first: int, wide: int, second: int, narrow: int)
    requires first - second <= wide - narrow
    ensures Retain(Retain(times, first, wide), second, narrow) == Retain(times, second, narrow)
  {
    if times != [] {
      RetainWider(times[1..], first, wide, second, narrow);
      RetainAppend(if first - times[0] < wide then [times[0]] else [], Retain(times[1..], first, wide), second, narrow);
    }
  }

  lemma {:induction false} RetainNarrower(times: seq<int>, now: int, wide: int, narrow: int)
    requires narrow <= wide
    ensures |Retain(times, now, narrow)| <= |Retain(times, now, wide)|
  {
    if times != [] {
      RetainNarrower(times[1..], now, wide, narrow);
    }
  }

  // ----- when the queue is exact -----

  lemma {:induction false} TimesMembers(calls: seq<Call>, b: Bucket)
    ensures forall x :: x in TimesOf(calls, b) <==> exists i :: 0 <= i < |calls| && AdmittedAt(calls[i], b, x)
  {
    if calls != [] {
      var init, last := calls[..|calls| - 1], calls[|calls| - 1];
      TimesMembers(init, b);
      hide AdmittedAt;
      forall x ensures x in TimesOf(calls, b) <==> exists i :: 0 <= i < |calls| && AdmittedAt(calls[i], b, x) {
        LastAdmitted(calls, b, x);
      }
    }
  }

  lemma LastAdmitted(calls: seq<Call>, b: Bucket, x: int)
    requires calls != []
    ensures var init, last := calls[..|calls| - 1], calls[|calls| - 1];
            && (x in TimesOf(calls, b) <==> x in TimesOf(init, b) || AdmittedAt(last, b, x))
            && ((exists i :: 0 <= i < |calls| && AdmittedAt(calls[i], b, x)) <==>
                (exists i :: 0 <= i < |init| && AdmittedAt(init[i], b, x)) || AdmittedAt(last, b, x))
  {
    var init, last := calls[..|calls| - 1], calls[|calls| - 1];
    if i :| 0 <= i < |init| && AdmittedAt(init[i], b, x) {
      assert AdmittedAt(calls[i], b, x);
    }
    if i :| 0 <= i < |calls| && AdmittedAt(calls[i], b, x) {
      assert i < |init| ==> AdmittedAt(init[i], b, x);
    }
  }

  /** One more call overtakes what its reading puts beyond the window. */
  lemma OvertakenByLast(calls: seq<Call>, b: Bucket, now: int)
    requires calls != []
    ensures var init, last, w := calls[..|calls| - 1], calls[|calls| - 1], b.Window();
            Overtaken(calls, b, now) <==> Overtaken(init, b, now) || !LosesNone(TimesOf(init, b), last.now, now, w)
  {
    hide TimesOf;
    var init, last, w := calls[..|calls| - 1], calls[|calls| - 1], b.Window();
    TimesMembers(init, b);
    if i, j :| 0 <= i < j < |calls| && Overtakes(calls[i], calls[j], b, now) {
      assert init[i] == calls[i];
      if j < |init| {
        assert Overtakes(init[i], init[j], b, now);
      } else {
        assert AdmittedAt(init[i], b, init[i].now);
        assert init[i].now in TimesOf(init, b) && Lost(init[i].now, last.now, now, w);
      }
    }
    if i, j :| 0 <= i < j < |init| && Overtakes(init[i], init[j], b, now) {
      assert Overtakes(calls[i], calls[j], b, now);
    }
    if x :| x in TimesOf(init, b) && Lost(x, last.now, now, w) {
      var i :| 0 <= i < |init| && AdmittedAt(init[i], b, x);
      assert Overtakes(calls[i], calls[|init|], b, now);
    }
  }

  /** Lists that differ only in a common tail. */
  lemma SameTail(a: seq<int>, b: seq<int>, tail: seq<int>)
    ensures a + tail == b + tail <==> a == b
  {
    if a + tail == b + tail {
      assert a == (a + tail)[..|a|] && b == (b + tail)[..|b|];
    }
  }

  /**
   For a reading `now` the remembered queue is at most as long as the true window, and
   it is the true window exactly when no admission in that window has been overtaken.
   */
  lemma {:induction false} RememberedExactly(calls: seq<Call>, b: Bucket, now: int)
    ensures |Retain(Remembered(calls, b), now, b.Window())| <= |Retain(TimesOf(calls, b), now, b.Window())|
    ensures |Retain(Remembered(calls, b), now, b.Window())| == |Retain(TimesOf(calls, b), now, b.Window())|
            <==> !Overtaken(calls, b, now)
    ensures Retain(Remembered(calls, b), now, b.Window()) == Retain(TimesOf(calls, b), now, b.Window())
            <==> !Overtaken(calls, b, now)
  {
    hide Retain, Overtaken;
    if calls == [] {
      NoneOvertaken(b, now);
    } else {
      var init, last, w := calls[..|calls| - 1], calls[|calls| - 1], b.Window();
      var r, times := Remembered(init, b), TimesOf(init, b);
      var added := if last.admitted && last.bucket == b then [last.now] else [];
      RememberedExactly(init, b, now);
      RetainTwice(r, last.now, now, w);
      RetainAppend(Retain(r, last.now, w), added, now, w);
      RetainAppend(times, added, now, w);
      SameTail(Retain(Retain(r, last.now, w), now, w), Retain(times, now, w), Retain(added, now, w));
      RetainMembers(r, now, w);
      RetainMembers(times, now, w);
      OvertakenByLast(calls, b, now);
      hide TimesOf, Remembered;
      if !Overtaken(init, b, now) {
        assert forall x | now - x < w :: x in r <==> x in times by {
          assert forall x | now - x < w :: x in r <==> x in Retain(r, now, w);
        }
      }
    }
  }

  lemma NoneOvertaken(b: Bucket, now: int)
    ensures Remembered([], b) == TimesOf([], b) && !Overtaken([], b, now)
  {
  }

  /** The reading `now` is behind no earlier one. */
  ghost predicate InOrder(calls: seq<Call>, now: int) {
    forall j | 0 <= j < |calls| :: calls[j].now <= now
  }

  lemma InOrderNotOvertaken(calls: seq<Call>, b: Bucket, now: int)
    requires InOrder(calls, now)
    ensures !Overtaken(calls, b, now)
  {
  }

  // ----- requests -----

  datatype Request = Request(bucket: Bucket, limit: nat, now: int)

  function Admits(attempts: map<Bucket, seq<int>>, r: Request): bool {
    var pruned := Pruned(attempts, r.now);
    (|pruned| < MAX_BUCKETS || r.bucket in pruned) && |Queue(pruned, r.bucket)| < r.limit
  }

  /** The table after a request; a refusal at a limit of zero leaves an empty bucket behind. */
  function After(attempts: map<Bucket, seq<int>>, r: Request): map<Bucket, seq<int>> {
    var pruned := Pruned(attempts, r.now);
    if |pruned| >= MAX_BUCKETS && r.bucket !in pruned then pruned
    else pruned[r.bucket := Queue(pruned, r.bucket) + (if Admits(attempts, r) then [r.now] else [])]
  }

  /** The table holds what the calls left, in at most 4096 buckets. */
  ghost predicate Holds(attempts: map<Bucket, seq<int>>, calls: seq<Call>) {
    |attempts| <= MAX_BUCKETS && forall b: Bucket :: Queue(attempts, b) == Remembered(calls, b)
  }

  function CallOf(attempts: map<Bucket, seq<int>>, r: Request): Call {
    Call(r.bucket, r.now, Admits(attempts, r))
  }

  lemma PrunedQueue(attempts: map<Bucket, seq<int>>, now: int, b: Bucket)
    ensures Queue(Pruned(attempts, now), b) == Retain(Queue(attempts, b), now, b.Window())
    ensures |Pruned(attempts, now)| <= |attempts|
  {
    SubsetSize(Pruned(attempts, now).Keys, attempts.Keys);
    assert |Pruned(attempts, now).Keys| == |Pruned(attempts, now)| && |attempts.Keys| == |attempts|;
  }

  lemma RememberedNext(calls: seq<Call>, call: Call, b: Bucket)
    ensures Remembered(calls + [call], b)
         == Retain(Remembered(calls, b), call.now, b.Window())
             + (if call.admitted && call.bucket == b then [call.now] else [])
  {
    assert (calls + [call])[..|calls|] == calls;
  }

  lemma AfterHolds(attempts: map<Bucket, seq<int>>, calls: seq<Call>, r: Request)
    requires Holds(attempts, calls)
    ensures Holds(After(attempts, r), calls + [CallOf(attempts, r)])
    ensures forall b | b in After(attempts, r) && After(attempts, r)[b] == [] :: b == r.bucket && r.limit == 0
  {
    hide Retain, Remembered;
    var next := calls + [CallOf(attempts, r)];
    forall b: Bucket ensures Queue(After(attempts, r), b) == Remembered(next, b) {
      PrunedQueue(attempts, r.now, b);
      RememberedNext(calls, CallOf(attempts, r), b);
    }
    AfterBounded(attempts, r);
  }

  lemma AfterBounded(attempts: map<Bucket, seq<int>>, r: Request)
    requires |attempts| <= MAX_BUCKETS
    ensures |After(attempts, r)| <= MAX_BUCKETS
    ensures forall b | b in After(attempts, r) && After(attempts, r)[b] == [] :: b == r.bucket && r.limit == 0
  {
    hide Retain;
    PrunedQueue(attempts, r.now, r.bucket);
    var pruned := Pruned(attempts, r.now);
    assert forall b | b in pruned :: pruned[b] != [];
    hide Pruned;
    assert |pruned.Keys| == |pruned| && |After(attempts, r).Keys| == |After(attempts, r)|;
    if |pruned| < MAX_BUCKETS || r.bucket in pruned {
      assert After(attempts, r).Keys == pruned.Keys + {r.bucket};
    }
  }

  /**
   A bucket that has its place decides every request as its true window would, whatever
   the limit, exactly when no admission in that window has been overtaken.
   */
  lemma DecisionExactly(attempts: map<Bucket, seq<int>>, calls: seq<Call>, b: Bucket, now: int)
    requires Holds(attempts, calls) && (|Pruned(attempts, now)| < MAX_BUCKETS || b in Pruned(attempts, now))
    ensures (forall limit: nat ::
             Admits(attempts, Request(b, limit, now)) <==> |Retain(TimesOf(calls, b), now, b.Window())| < limit)
            <==> !Overtaken(calls, b, now)
    ensures forall limit: nat | |Retain(TimesOf(calls, b), now, b.Window())| < limit ::
              Admits(attempts, Request(b, limit, now))
  {
    hide Retain, Overtaken, Pruned, TimesOf, Remembered;
    PrunedQueue(attempts, now, b);
    RememberedExactly(calls, b, now);
    var true_ := |Retain(TimesOf(calls, b), now, b.Window())|;
    if Overtaken(calls, b, now) {
      assert Admits(attempts, Request(b, true_, now));
    }
  }

  /** The calls that admitted the bucket less than an hour, or for activations a minute, before `now`. */
  ghost function Recent(calls: seq<Call>, b: Bucket, now: int): set<int> {
    set j | 0 <= j < |calls| && IsRecent(calls[j], b, now)
  }

  predicate IsRecent(call: Call, b: Bucket, now: int) {
    call.admitted && call.bucket == b && now - call.now < if b.issuance then 3_600_000 else 60_000
  }

  /** The true window has one reading for each of them. */
  lemma {:induction false} TrueWindowCounts(calls: seq<Call>, b: Bucket, now: int)
    ensures |Retain(TimesOf(calls, b), now, b.Window())| == |Recent(calls, b, now)|
  {
    hide Retain, Recent;
    if calls == [] {
      NothingRecent(b, now);
    } else {
      var n := |calls| - 1;
      TrueWindowCounts(calls[..n], b, now);
      RecentNext(calls, b, now);
      var last := calls[n];
      var added := if last.admitted && last.bucket == b then [last.now] else [];
      RetainAppend(TimesOf(calls[..n], b), added, now, b.Window());
      RetainOne(last.now, now, b.Window());
    }
  }

  lemma NothingRecent(b: Bucket, now: int)
    ensures Recent([], b, now) == {} && Retain([], now, b.Window()) == []
  {
  }

  lemma RetainOne(x: int, now: int, window: int)
    ensures Retain([x], now, window) == (if now - x < window then [x] else []) && Retain([], now, window) == []
  {
    assert [x][1..] == [];
  }

  lemma RecentNext(calls: seq<Call>, b: Bucket, now: int)
    requires calls != []
    ensures var n, last := |calls| - 1, calls[|calls| - 1];
            var more := last.admitted && last.bucket == b && now - last.now < b.Window();
            |Recent(calls, b, now)| == |Recent(calls[..n], b, now)| + (if more then 1 else 0)
  {
    var n := |calls| - 1;
    assert IsRecent(calls[n], b, now)
           <==> calls[n].admitted && calls[n].bucket == b && now - calls[n].now < b.Window();
    hide IsRecent;
    var before, all := Recent(calls[..n], b, now), Recent(calls, b, now);
    assert forall j | 0 <= j < n :: calls[..n][j] == calls[j];
    assert n !in before;
    if IsRecent(calls[n], b, now) {
      assert all == before + {n};
    } else {
      assert all == before;
    }
  }

  /** The buckets with an admission inside the window that ends at `now`. */
  ghost function Occupied(calls: seq<Call>, now: int): set<Bucket> {
    set call | call in calls && call.admitted && now - call.now < call.bucket.Window() :: call.bucket
  }

  lemma OccupiedExactly(calls: seq<Call>, b: Bucket, now: int)
    ensures b in Occupied(calls, now) <==> Retain(TimesOf(calls, b), now, b.Window()) != []
  {
    hide Retain, TimesOf;
    var times := TimesOf(calls, b);
    TimesMembers(calls, b);
    RetainMembers(times, now, b.Window());
    var kept := Retain(times, now, b.Window());
    if b in Occupied(calls, now) {
      var i :| 0 <= i < |calls| && calls[i].admitted && calls[i].bucket == b && now - calls[i].now < b.Window();
      assert AdmittedAt(calls[i], b, calls[i].now);
      assert calls[i].now in kept;
    }
    if kept != [] {
      assert kept[0] in kept;
      var i :| 0 <= i < |calls| && AdmittedAt(calls[i], b, kept[0]);
      assert calls[i] in calls;
    }
  }

  /**
   A request whose reading is behind no earlier one is decided by the log alone: it is
   admitted exactly when its true window has room and its bucket is among the occupied
   ones or those are fewer than 4096.
   */
  lemma DecisionInOrder(attempts: map<Bucket, seq<int>>, calls: seq<Call>, r: Request)
    requires Holds(attempts, calls) && InOrder(calls, r.now)
    ensures Admits(attempts, r)
       <==> && |Recent(calls, r.bucket, r.now)| < r.limit
            && (Recent(calls, r.bucket, r.now) != {} || |Occupied(calls, r.now)| < 4096)
  {
    TrueWindowCounts(calls, r.bucket, r.now);
    var pruned := Pruned(attempts, r.now);
    forall b: Bucket
      ensures b in pruned <==> b in Occupied(calls, r.now)
      ensures Queue(pruned, b) == Retain(TimesOf(calls, b), r.now, b.Window())
    {
      InOrderNotOvertaken(calls, b, r.now);
      PrunedHolds(attempts, calls, r.now, b);
      OccupiedExactly(calls, b, r.now);
    }
    hide Retain, TimesOf, Pruned, Occupied, Holds, Recent;
    assert pruned.Keys == Occupied(calls, r.now);
    assert |pruned.Keys| == |pruned|;
  }

  /** The pruned table has a bucket exactly when its true window, not overtaken, is not empty. */
  lemma PrunedHolds(attempts: map<Bucket, seq<int>>, calls: seq<Call>, now: int, b: Bucket)
    requires Holds(attempts, calls) && !Overtaken(calls, b, now)
    ensures Queue(Pruned(attempts, now), b) == Retain(TimesOf(calls, b), now, b.Window())
    ensures b in Pruned(attempts, now) <==> Retain(TimesOf(calls, b), now, b.Window()) != []
  {
    PrunedQueue(attempts, now, b);
    RememberedExactly(calls, b, now);
  }

  // ----- windows -----

  /** The bucket's admissions in the window, shortened by `skew`, that ends at `end`. */
  ghost function InWindow(calls: seq<Call>, b: Bucket, end: int, skew: nat): nat {
    CountIn(TimesOf(calls, b), end, b.Window() - skew)
  }

  /** No bucket exceeded its limit in any window shortened by `skew`. */
  ghost predicate WithinLimit(calls: seq<Call>, limits: map<bool, nat>, skew: nat)
    requires limits.Keys == {true, false}
  {
    forall b: Bucket, end :: InWindow(calls, b, end, skew) <= limits[b.issuance]
  }

  /** A call that is refused, or whose window had room, keeps every window within its limit. */
  lemma CallFits(calls: seq<Call>, call: Call, limits: map<bool, nat>, skew: nat)
    requires limits.Keys == {true, false} && WithinLimit(calls, limits, skew)
    requires call.admitted ==>
               |Retain(TimesOf(calls, call.bucket), call.now, call.bucket.Window() - skew)|
               < limits[call.bucket.issuance]
    ensures WithinLimit(calls + [call], limits, skew)
  {
    var next := calls + [call];
    assert next[..|calls|] == calls;
    forall b: Bucket, end ensures InWindow(next, b, end, skew) <= limits[b.issuance] {
      assert InWindow(calls, b, end, skew) <= limits[b.issuance];
      var w := b.Window() - skew;
      if call.admitted && b == call.bucket {
        CountAppend(TimesOf(calls, b), [call.now], end, w);
        assert CountIn([call.now], end, w) == if end - w < call.now <= end then 1 else 0 by {
          assert [call.now][1..] == [];
        }
        if call.now <= end {
          CountRetained(TimesOf(calls, b), call.now, end, w);
        }
      } else {
        assert TimesOf(next, b) == TimesOf(calls, b);
      }
    }
  }

  /** If no reading was more than `skew` ahead, the queue holds the whole window shortened by `skew`. */
  lemma {:induction false} SkewedWindow(calls: seq<Call>, b: Bucket, now: int, skew: nat)
    requires forall j | 0 <= j < |calls| :: calls[j].now <= now + skew
    ensures Retain(TimesOf(calls, b), now, b.Window() - skew) == Retain(Remembered(calls, b), now, b.Window() - skew)
  {
    hide Retain;
    if calls == [] {
      NoneOvertaken(b, now);
    } else {
      var init, last, w := calls[..|calls| - 1], calls[|calls| - 1], b.Window();
      var added := if last.admitted && last.bucket == b then [last.now] else [];
      SkewedWindow(init, b, now, skew);
      RetainWider(Remembered(init, b), last.now, w, now, w - skew);
      RetainAppend(TimesOf(init, b), added, now, w - skew);
      RetainAppend(Retain(Remembered(init, b), last.now, w), added, now, w - skew);
    }
  }

  /** The calls that a run of requests makes of an empty limiter, and the table it leaves. */
  ghost function Serve(requests: seq<Request>): (map<Bucket, seq<int>>, seq<Call>) {
    if requests == [] then (map[], [])
    else
      var before, last := Serve(requests[..|requests| - 1]), requests[|requests| - 1];
      (After(before.0, last), before.1 + [CallOf(before.0, last)])
  }

  lemma {:induction false} ServeHolds(requests: seq<Request>)
    ensures Holds(Serve(requests).0, Serve(requests).1) && |Serve(requests).1| == |requests|
    ensures forall j | 0 <= j < |requests| :: Serve(requests).1[j].now == requests[j].now
  {
    hide After, Holds, Admits;
    if requests == [] {
      EmptyHolds();
    } else {
      var init := requests[..|requests| - 1];
      ServeHolds(init);
      AfterHolds(Serve(init).0, Serve(init).1, requests[|requests| - 1]);
    }
  }

  lemma EmptyHolds()
    ensures Holds(map[], [])
  {
  }

  /** No reading is more than `skew` behind one that got the lock before it. */
  ghost predicate Skewed(requests: seq<Request>, skew: nat) {
    forall i, j | 0 <= i < j < |requests| :: requests[i].now <= requests[j].now + skew
  }

  /**
   Along every run whose readings are at most `skew` out of order, no account exceeds its
   limit in any window shortened by `skew`; in order, in any window at all.
   */
  lemma {:induction false} SkewedRunWithin(requests: seq<Request>, limits: map<bool, nat>, skew: nat)
    requires limits.Keys == {true, false} && Skewed(requests, skew)
    requires forall r | r in requests :: r.limit <= limits[r.bucket.issuance]
    ensures WithinLimit(Serve(requests).1, limits, skew)
  {
    hide WithinLimit, Holds, After, Retain, TimesOf, Remembered, Pruned;
    if requests == [] {
      EmptyWithin(limits, skew);
    } else {
      var init, last := requests[..|requests| - 1], requests[|requests| - 1];
      var before := Serve(init);
      SkewedRunWithin(init, limits, skew);
      ServeHolds(init);
      SkewedWindow(before.1, last.bucket, last.now, skew);
      RetainNarrower(Remembered(before.1, last.bucket), last.now, last.bucket.Window(), last.bucket.Window() - skew);
      QueueRemembered(before.0, before.1, last.now, last.bucket);
      assert last in requests;
      CallFits(before.1, CallOf(before.0, last), limits, skew);
    }
  }

  lemma EmptyWithin(limits: map<bool, nat>, skew: nat)
    requires limits.Keys == {true, false}
    ensures WithinLimit([], limits, skew)
  {
  }

  lemma QueueRemembered(attempts: map<Bucket, seq<int>>, calls: seq<Call>, now: int, b: Bucket)
    requires Holds(attempts, calls)
    ensures Queue(Pruned(attempts, now), b) == Retain(Remembered(calls, b), now, b.Window())
  {
    PrunedQueue(attempts, now, b);
  }

  /**
   Three requests under limits of one: the second account's reading, one millisecond ahead,
   lets the first account in twice.
   */
  const OUT_OF_ORDER :=
      [Request(Bucket(1, false), 1, 0), Request(Bucket(2, false), 1, 60_000), Request(Bucket(1, false), 1, 59_999)]

  lemma OutOfOrderExceeds()
    ensures var calls := Serve(OUT_OF_ORDER).1;
            && |calls| == 3 && (forall j | 0 <= j < 3 :: calls[j].admitted)
            && Overtaken(calls[..2], Bucket(1, false), 59_999)
            && InWindow(calls, Bucket(1, false), 59_999, 0) == 2
            && !WithinLimit(calls, map[true := 1, false := 1], 0)
  {
    hide Serve, TimesOf, InWindow, Overtaken;
    OutOfOrderServed();
    OutOfOrderCounted();
  }

  const TAKEN :=
      [Call(Bucket(1, false), 0, true), Call(Bucket(2, false), 60_000, true), Call(Bucket(1, false), 59_999, true)]

  lemma OutOfOrderCounted()
    ensures Overtaken(TAKEN[..2], Bucket(1, false), 59_999) && InWindow(TAKEN, Bucket(1, false), 59_999, 0) == 2
  {
    hide TimesOf;
    var one := Bucket(1, false);
    assert Overtakes(TAKEN[..2][0], TAKEN[..2][1], one, 59_999);
    NoneTaken(one);
    TimesNext([], TAKEN[0], one);
    TimesNext([TAKEN[0]], TAKEN[1], one);
    TimesNext([TAKEN[0], TAKEN[1]], TAKEN[2], one);
    assert [] + [TAKEN[0]] == [TAKEN[0]] && [TAKEN[0]] + [TAKEN[1]] == [TAKEN[0], TAKEN[1]];
    assert [TAKEN[0], TAKEN[1]] + [TAKEN[2]] == TAKEN;
    assert TimesOf(TAKEN, one) == [0, 59_999];
    assert [0, 59_999][1..] == [59_999] && [59_999][1..] == [];
  }

  lemma NoneTaken(b: Bucket)
    ensures TimesOf([], b) == []
  {
  }

  lemma TimesNext(calls: seq<Call>, call: Call, b: Bucket)
    ensures TimesOf(calls + [call], b) == TimesOf(calls, b)
              + (if call.admitted && call.bucket == b then [call.now] else [])
  {
    assert (calls + [call])[..|calls|] == calls;
  }

  lemma OutOfOrderServed()
    ensures Serve(OUT_OF_ORDER).1 == TAKEN
  {
    hide Pruned;
    var one, two := Bucket(1, false), Bucket(2, false);
    var q := OUT_OF_ORDER;
    NothingPruned(0);
    PruneOne(one, 0, 60_000);
    PruneOne(two, 60_000, 59_999);
    ServeNext([], q[0]);
    assert Queue(map[], one) == [] && [] + [0] == [0];
    assert CallOf(map[], q[0]) == Call(one, 0, true);
    assert After(map[], q[0]) == map[one := [0]];
    ServeNext([q[0]], q[1]);
    assert Queue(map[], two) == [] && [] + [60_000] == [60_000];
    assert CallOf(map[one := [0]], q[1]) == Call(two, 60_000, true);
    assert After(map[one := [0]], q[1]) == map[two := [60_000]];
    ServeNext([q[0], q[1]], q[2]);
    assert q == [q[0], q[1]] + [q[2]] && [q[0]] + [q[1]] == [q[0], q[1]] && [] + [q[0]] == [q[0]];
  }

  lemma ServeNext(requests: seq<Request>, r: Request)
    ensures Serve(requests + [r]) == (After(Serve(requests).0, r), Serve(requests).1 + [CallOf(Serve(requests).0, r)])
  {
    assert (requests + [r])[..|requests|] == requests;
  }

  lemma NothingPruned(now: int)
    ensures Pruned(map[], now) == map[]
  {
  }

  /** A table of one admission, pruned. */
  lemma PruneOne(b: Bucket, x: int, now: int)
    ensures Pruned(map[b := [x]], now) == if now - x < b.Window() then map[b := [x]] else map[]
  {
    var table := map[b := [x]];
    assert [x][1..] == [];
    assert table[b] == [x] && Retain([x], now, b.Window()) == if now - x < b.Window() then [x] else [];
    if now - x < b.Window() {
      assert Pruned(table, now) == table;
    } else {
      assert Pruned(table, now) == map[];
    }
  }

  // ----- the limiter object -----

  class Limiter {
    var attempts: map<Bucket, seq<int>>
    /** Every call that held the lock so far. */
    ghost var calls: seq<Call>

    ghost predicate Valid()
      reads this
    {
      Holds(attempts, calls)
    }

    constructor ()
      ensures Valid() && attempts == map[] && calls == []
    {
      attempts, calls := map[], [];
    }

    /** Admits a request whose reading `now` may be behind earlier ones. */
    method Admit(bucket: Bucket, limit: nat, now: int) returns (admitted: bool)
      requires Valid()
      modifies this
      ensures Valid() && |attempts| <= MAX_BUCKETS
      ensures forall b | b in attempts && attempts[b] == [] :: b == bucket && limit == 0
      ensures calls == old(calls) + [Call(bucket, now, admitted)]
              && attempts == After(old(attempts), Request(bucket, limit, now))
      ensures admitted == Admits(old(attempts), Request(bucket, limit, now))
      ensures !Overtaken(old(calls), bucket, now) ==>
                (admitted <==> |Retain(TimesOf(old(calls), bucket), now, bucket.Window())| < limit
                               && (|Pruned(old(attempts), now)| < MAX_BUCKETS || bucket in Pruned(old(attempts), now)))
      ensures InOrder(old(calls), now) ==>
                (admitted <==> && |Recent(old(calls), bucket, now)| < limit
                               && (Recent(old(calls), bucket, now) != {} || |Occupied(old(calls), now)| < 4096))
      ensures !Overtaken(old(calls), bucket, now) ==>
                forall limits: map<bool, nat> |
                  limits.Keys == {true, false} && limits[bucket.issuance] == limit
                      && WithinLimit(old(calls), limits, 0) ::
                  WithinLimit(calls, limits, 0)
    {
      hide TimesOf, Retain, Pruned, WithinLimit, Overtaken, Holds, Remembered, Occupied, InOrder, Recent;
      ghost var r := Request(bucket, limit, now);
      AfterHolds(attempts, calls, r);
      AdmitFits(attempts, calls, r);
      HoldsBounded(After(attempts, r), calls + [CallOf(attempts, r)]);
      calls := calls + [CallOf(attempts, r)];
      attempts := Pruned(attempts, now);
      if |attempts| >= MAX_BUCKETS && bucket !in attempts {
        return false;
      }
      var times := if bucket in attempts then attempts[bucket] else [];
      attempts := attempts[bucket := times];
      assert times + [] == times;
      if |times| >= limit {
        return false;
      }
      attempts := attempts[bucket := times + [now]];
      assert attempts == After(old(attempts), r);
      return true;
    }
  }

  lemma HoldsBounded(attempts: map<Bucket, seq<int>>, calls: seq<Call>)
    requires Holds(attempts, calls)
    ensures |attempts| <= MAX_BUCKETS
  {
  }

  /** When nothing in the window has been overtaken, an admission is one the window has room for. */
  lemma AdmitFits(attempts: map<Bucket, seq<int>>, calls: seq<Call>, r: Request)
    requires Holds(attempts, calls)
    ensures !Overtaken(calls, r.bucket, r.now) ==>
              (Admits(attempts, r) <==> |Retain(TimesOf(calls, r.bucket), r.now, r.bucket.Window())| < r.limit
                                        && (|Pruned(attempts, r.now)| < MAX_BUCKETS
                                            || r.bucket in Pruned(attempts, r.now)))
    ensures !Overtaken(calls, r.bucket, r.now) ==>
              forall limits: map<bool, nat> |
                limits.Keys == {true, false} && limits[r.bucket.issuance] == r.limit && WithinLimit(calls, limits, 0) ::
                WithinLimit(calls + [CallOf(attempts, r)], limits, 0)
    ensures InOrder(calls, r.now) ==>
              (Admits(attempts, r) <==> && |Recent(calls, r.bucket, r.now)| < r.limit
                                        && (Recent(calls, r.bucket, r.now) != {} || |Occupied(calls, r.now)| < 4096))
  {
    hide TimesOf, Retain, Pruned, WithinLimit, Overtaken, Holds, Remembered, Occupied, InOrder, Recent;
    if InOrder(calls, r.now) {
      DecisionInOrder(attempts, calls, r);
    }
    QueueRemembered(attempts, calls, r.now, r.bucket);
    RememberedExactly(calls, r.bucket, r.now);
    if !Overtaken(calls, r.bucket, r.now) {
      forall limits: map<bool, nat> | limits.Keys == {true, false} && limits[r.bucket.issuance] == r.limit
          && WithinLimit(calls, limits, 0)
        ensures WithinLimit(calls + [CallOf(attempts, r)], limits, 0)
      {
        CallFits(calls, CallOf(attempts, r), limits, 0);
      }
    }
  }
}
