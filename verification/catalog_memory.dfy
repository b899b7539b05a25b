/**
 The in-memory page cache: a queue ordered by last touch, with expiry, a size bound
 and pages too large to keep.
 */
module CatalogMemory {
  import opened FiniteSets
  import opened Outcomes

  const MAX_BODY := 262_144

  datatype Stored<K, V> = Stored(key: K, value: V, expires: int)

  /** The clock is read once for every entry. */
  predicate Readings<K(!new), V(!new)>(pages: seq<Stored<K, V>>, clock: seq<int>, start: int, end: int) {
    |clock| == |pages| && start <= end && forall i | 0 <= i < |clock| :: start <= clock[i] <= end
  }

  /** The entries that survive: not expired at their readings, and not under the key being replaced. */
  function Kept<K(==, !new), V(!new)>(pages: seq<Stored<K, V>>, replaced: Option<K>, clock: seq<int>)
    : (r: seq<Stored<K, V>>)
    requires |clock| == |pages|
    ensures |r| <= |pages|
  {
    if pages == [] then []
    else
      var rest := Kept(pages[1..], replaced, clock[1..]);
      if pages[0].expires > clock[0] && replaced != Some(pages[0].key) then [pages[0]] + rest else rest
  }

  lemma {:induction false} KeptMembers<K(!new), V(!new)>(
      pages: seq<Stored<K, V>>, replaced: Option<K>, clock: seq<int>)
    requires |clock| == |pages|
    ensures forall e | e in Kept(pages, replaced, clock) :: e in pages && replaced != Some(e.key)
  {
    if pages != [] {
      KeptMembers(pages[1..], replaced, clock[1..]);
      assert pages == [pages[0]] + pages[1..];
    }
  }

  /** What is kept had not expired at the start, and what has not expired at the end is kept. */
  lemma {:induction false} KeptUnexpired<K(!new), V(!new)>(
      pages: seq<Stored<K, V>>, replaced: Option<K>, clock: seq<int>, start: int, end: int)
    requires Readings(pages, clock, start, end)
    ensures forall e | e in Kept(pages, replaced, clock) :: e in pages && replaced != Some(e.key) && e.expires > start
    ensures forall e | e in pages && replaced != Some(e.key) && e.expires > end :: e in Kept(pages, replaced, clock)
  {
    if pages != [] {
      KeptUnexpired(pages[1..], replaced, clock[1..], start, end);
      assert pages == [pages[0]] + pages[1..];
    }
  }

  function Position<K(==, !new), V(!new)>(pages: seq<Stored<K, V>>, key: K): (at: Option<nat>)
    ensures at.Some? ==> at.value < |pages| && pages[at.value].key == key
    ensures at.None? <==> forall e | e in pages :: e.key != key
  {
    if pages == [] then None
    else if pages[0].key == key then Some(0)
    else
      var at := Position(pages[1..], key);
      if at.None? then None else Some(at.value + 1)
  }

  function Last<T>(q: seq<T>, max: nat): seq<T> {
    if |q| > max then q[|q| - max..] else q
  }

  function Found<K(==, !new), V(!new)>(pages: seq<Stored<K, V>>, key: K, clock: seq<int>): Option<Stored<K, V>>
    requires |clock| == |pages|
  {
    var live := Kept(pages, None, clock);
    var at := Position(live, key);
    if at.None? then None else Some(live[at.value])
  }

  function AfterGet<K(==, !new), V(!new)>(pages: seq<Stored<K, V>>, key: K, clock: seq<int>): seq<Stored<K, V>>
    requires |clock| == |pages|
  {
    match Found(pages, key, clock)
    case None => Kept(pages, None, clock)
    case Some(e) => Kept(pages, Some(key), clock) + [e]
  }

  function AfterPut<K(==, !new), V(!new)>(pages: seq<Stored<K, V>>, e: Stored<K, V>, clock: seq<int>, max: nat)
    : seq<Stored<K, V>>
    requires |clock| == |pages|
  {
    Last(Kept(pages, Some(e.key), clock) + [e], max)
  }

  // ----- what the cache should remember -----

  /** An accepted put, or a get that found its page. */
  datatype Touch<K, V> = Put(key: K, value: V, expires: int) | Hit(key: K)

  ghost function Latest<K(!new), V(!new)>(log: seq<Touch<K, V>>, key: K): Option<(V, int)> {
    if log == [] then None
    else
      var last := log[|log| - 1];
      if last.Put? && last.key == key then Some((last.value, last.expires)) else Latest(log[..|log| - 1], key)
  }

  /** The other keys touched since this one was last touched. */
  ghost function Since<K(!new), V(!new)>(log: seq<Touch<K, V>>, key: K): set<K> {
    if log == [] then {}
    else
      var last := log[|log| - 1];
      if last.key == key then {} else Since(log[..|log| - 1], key) + {last.key}
  }

  /** Later entries were touched since earlier ones. */
  ghost predicate ByTouch<K(!new), V(!new)>(pages: seq<Stored<K, V>>, log: seq<Touch<K, V>>) {
    forall i, j | 0 <= i < j < |pages| :: pages[i].key != pages[j].key && pages[j].key in Since(log, pages[i].key)
  }

  ghost predicate LastAccepted<K(!new), V(!new)>(pages: seq<Stored<K, V>>, log: seq<Touch<K, V>>) {
    forall e | e in pages :: Latest(log, e.key) == Some((e.value, e.expires))
  }

  /** An unexpired page is missing only if `max` other keys were touched since it was. */
  ghost predicate Complete<K(!new), V(!new)>(pages: seq<Stored<K, V>>, log: seq<Touch<K, V>>, now: int, max: nat) {
    forall key | Latest(log, key).Some? && Latest(log, key).value.1 > now ::
      |Since(log, key)| >= max || exists e :: e in pages && e.key == key
  }

  ghost predicate Remembers<K(!new), V(!new)>(pages: seq<Stored<K, V>>, log: seq<Touch<K, V>>, now: int, max: nat) {
    |pages| <= max && ByTouch(pages, log) && LastAccepted(pages, log) && Complete(pages, log, now, max)
  }

  lemma {:induction false} KeptByTouch<K(!new), V(!new)>(
      pages: seq<Stored<K, V>>, log: seq<Touch<K, V>>, replaced: Option<K>, clock: seq<int>)
    requires ByTouch(pages, log) && |clock| == |pages|
    ensures ByTouch(Kept(pages, replaced, clock), log)
  {
    if pages != [] {
      KeptByTouch(pages[1..], log, replaced, clock[1..]);
      KeptMembers(pages[1..], replaced, clock[1..]);
      var rest := Kept(pages[1..], replaced, clock[1..]);
      forall j | 0 <= j < |rest| ensures pages[0].key != rest[j].key && rest[j].key in Since(log, pages[0].key) {
        assert rest[j] in pages[1..];
      }
    }
  }

  lemma TouchSince<K(!new), V(!new)>(log: seq<Touch<K, V>>, t: Touch<K, V>, key: K)
    ensures Since(log + [t], key) == if t.key == key then {} else Since(log, key) + {t.key}
    ensures Latest(log + [t], key) == if t.Put? && t.key == key then Some((t.value, t.expires)) else Latest(log, key)
  {
    assert (log + [t])[..|log|] == log;
  }

  lemma {:induction false} DistinctKeys<K(!new), V(!new)>(pages: seq<Stored<K, V>>, log: seq<Touch<K, V>>)
    requires ByTouch(pages, log)
    ensures |set e | e in pages :: e.key| == |pages|
  {
    hide Since;
    if pages != [] {
      DistinctKeys(pages[1..], log);
      var rest := set e | e in pages[1..] :: e.key;
      assert pages == [pages[0]] + pages[1..];
      assert (set e | e in pages :: e.key) == {pages[0].key} + rest;
      assert pages[0].key !in rest;
    }
  }

  /** The first entry is overtaken by all the others. */
  lemma FrontOvertaken<K(!new), V(!new)>(pages: seq<Stored<K, V>>, log: seq<Touch<K, V>>)
    requires pages != [] && ByTouch(pages, log)
    ensures |Since(log, pages[0].key)| >= |pages| - 1
  {
    DistinctKeys(pages[1..], log);
    var others := set e | e in pages[1..] :: e.key;
    forall k | k in others ensures k in Since(log, pages[0].key) {
      var j :| 0 <= j < |pages| - 1 && pages[1..][j].key == k;
      assert pages[j + 1].key in Since(log, pages[0].key);
    }
    SubsetSize(others, Since(log, pages[0].key));
  }

  /** Moving a touched entry to the back keeps the order of touches. */
  lemma BackByTouch<K(!new), V(!new)>(
      pages: seq<Stored<K, V>>, log: seq<Touch<K, V>>, t: Touch<K, V>, e: Stored<K, V>, clock: seq<int>)
    requires ByTouch(pages, log) && e.key == t.key && |clock| == |pages|
    ensures ByTouch(Kept(pages, Some(t.key), clock) + [e], log + [t])
  {
    hide Since;
    var kept := Kept(pages, Some(t.key), clock);
    KeptByTouch(pages, log, Some(t.key), clock);
    KeptMembers(pages, Some(t.key), clock);
    forall i | 0 <= i < |kept|
      ensures kept[i].key != t.key && Since(log + [t], kept[i].key) == Since(log, kept[i].key) + {t.key}
    {
      assert kept[i] in kept;
      TouchSince(log, t, kept[i].key);
    }
  }

  lemma BackAccepted<K(!new), V(!new)>(
      pages: seq<Stored<K, V>>, log: seq<Touch<K, V>>, t: Touch<K, V>, e: Stored<K, V>, clock: seq<int>)
    requires LastAccepted(pages, log) && e.key == t.key && |clock| == |pages|
    requires Latest(log + [t], e.key) == Some((e.value, e.expires))
    ensures LastAccepted(Kept(pages, Some(t.key), clock) + [e], log + [t])
  {
    hide Latest;
    KeptMembers(pages, Some(t.key), clock);
    forall x | x in Kept(pages, Some(t.key), clock) ensures Latest(log + [t], x.key) == Some((x.value, x.expires)) {
      TouchSince(log, t, x.key);
    }
  }

  lemma BackComplete<K(!new), V(!new)>(
      pages: seq<Stored<K, V>>, log: seq<Touch<K, V>>, start: int, t: Touch<K, V>, e: Stored<K, V>, clock: seq<int>,
      end: int, later: int, max: nat)
    requires LastAccepted(pages, log) && Complete(pages, log, start, max)
    requires Readings(pages, clock, start, end) && end <= later && e.key == t.key
    ensures Complete(Kept(pages, Some(t.key), clock) + [e], log + [t], later, max)
  {
    hide Latest, Since;
    var after := Kept(pages, Some(t.key), clock) + [e];
    KeptUnexpired(pages, Some(t.key), clock, start, end);
    forall key | Latest(log + [t], key).Some? && Latest(log + [t], key).value.1 > later
      ensures |Since(log + [t], key)| >= max || exists x :: x in after && x.key == key
    {
      TouchSince(log, t, key);
      if key == t.key {
        assert after[|after| - 1].key == key;
      } else if |Since(log, key)| >= max {
        SubsetSize(Since(log, key), Since(log + [t], key));
      } else {
        var x :| x in pages && x.key == key;
        assert x in after;
      }
    }
  }

  /** Dropping the front of an over-full queue loses only an overtaken page. */
  lemma LastRemembers<K(!new), V(!new)>(pages: seq<Stored<K, V>>, log: seq<Touch<K, V>>, now: int, max: nat)
    requires |pages| <= max + 1 && ByTouch(pages, log) && LastAccepted(pages, log) && Complete(pages, log, now, max)
    ensures Remembers(Last(pages, max), log, now, max)
  {
    hide Latest, Since;
    if |pages| > max {
      FrontOvertaken(pages, log);
      var rest := pages[1..];
      assert Last(pages, max) == rest && pages == [pages[0]] + rest;
      assert forall e | e in rest :: e in pages;
    }
  }

  /** A page moved or added at the back. */
  lemma TouchRemembers<K(!new), V(!new)>(
      pages: seq<Stored<K, V>>, log: seq<Touch<K, V>>, start: int, t: Touch<K, V>, e: Stored<K, V>, clock: seq<int>,
      end: int, later: int, max: nat)
    requires Remembers(pages, log, start, max) && Readings(pages, clock, start, end) && end <= later
    requires e.key == t.key && Latest(log + [t], e.key) == Some((e.value, e.expires))
    ensures Remembers(AfterPut(pages, e, clock, max), log + [t], later, max)
  {
    hide ByTouch, LastAccepted, Complete, Last;
    BackByTouch(pages, log, t, e, clock);
    BackAccepted(pages, log, t, e, clock);
    BackComplete(pages, log, start, t, e, clock, end, later, max);
    LastRemembers(Kept(pages, Some(e.key), clock) + [e], log + [t], later, max);
  }

  ghost function LogOfGet<K(!new), V(!new)>(
      pages: seq<Stored<K, V>>, log: seq<Touch<K, V>>, key: K, clock: seq<int>): seq<Touch<K, V>>
    requires |clock| == |pages|
  {
    if Found(pages, key, clock).Some? then log + [Hit(key)] else log
  }

  /** A get keeps the cache's memory. */
  lemma GetRemembers<K(!new), V(!new)>(
      pages: seq<Stored<K, V>>, log: seq<Touch<K, V>>, start: int, key: K, clock: seq<int>, end: int, max: nat)
    requires Remembers(pages, log, start, max) && Readings(pages, clock, start, end)
    ensures Remembers(AfterGet(pages, key, clock), LogOfGet(pages, log, key, clock), end, max)
  {
    hide ByTouch, Since, Latest;
    var live := Kept(pages, None, clock);
    KeptUnexpired(pages, None, clock, start, end);
    match Found(pages, key, clock) {
      case None =>
        KeptByTouch(pages, log, None, clock);
        forall k | Latest(log, k).Some? && Latest(log, k).value.1 > end && |Since(log, k)| < max
          ensures exists e :: e in live && e.key == k
        {
          var e :| e in pages && e.key == k;
          assert e in live;
        }
      case Some(e) =>
        assert e in live;
        TouchSince(log, Hit(key), key);
        TouchRemembers(pages, log, start, Hit(key), e, clock, end, end, max);
        Shorter(pages, e, clock);
        assert |Kept(pages, Some(key), clock) + [e]| <= max;
    }
  }

  lemma {:induction false} Shorter<K(!new), V(!new)>(pages: seq<Stored<K, V>>, e: Stored<K, V>, clock: seq<int>)
    requires e in pages && |clock| == |pages|
    ensures |Kept(pages, Some(e.key), clock)| < |pages|
  {
    if pages[0] != e {
      assert e in pages[1..];
      Shorter(pages[1..], e, clock[1..]);
    }
  }

  /**
   What a get returns: never a page that had expired when it began, always the last accepted
   put, and surely so while few other keys were touched and the page lasts until it ends.
   */
  lemma GetIsLatest<K(!new), V(!new)>(
      pages: seq<Stored<K, V>>, log: seq<Touch<K, V>>, before: int, start: int, key: K, clock: seq<int>, end: int,
      max: nat)
    requires Remembers(pages, log, before, max) && before <= start && Readings(pages, clock, start, end)
    ensures var r := Found(pages, key, clock);
            r.Some? ==> r.value.expires > start && Latest(log, key) == Some((r.value.value, r.value.expires))
    ensures Latest(log, key).Some? && Latest(log, key).value.1 > end && |Since(log, key)| < max
            ==> Found(pages, key, clock).Some?
  {
    hide Since, Latest, ByTouch;
    var live := Kept(pages, None, clock);
    KeptUnexpired(pages, None, clock, start, end);
    var r := Found(pages, key, clock);
    if r.Some? {
      assert r.value in live;
    }
    if Latest(log, key).Some? && Latest(log, key).value.1 > end && |Since(log, key)| < max {
      var e :| e in pages && e.key == key;
      assert e in live;
    }
  }

  lemma KeptFrom<K(!new), V(!new)>(pages: seq<Stored<K, V>>, i: nat, replaced: Option<K>, clock: seq<int>)
    requires i < |pages| == |clock|
    ensures var head := if pages[i].expires > clock[i] && replaced != Some(pages[i].key) then [pages[i]] else [];
            Kept(pages[i..], replaced, clock[i..]) == head + Kept(pages[i + 1..], replaced, clock[i + 1..])
  {
    assert pages[i..][1..] == pages[i + 1..] && clock[i..][1..] == clock[i + 1..];
  }

  lemma KeptEnd<K(!new), V(!new)>(pages: seq<Stored<K, V>>, replaced: Option<K>, clock: seq<int>)
    requires |clock| == |pages|
    ensures Kept(pages[0..], replaced, clock[0..]) == Kept(pages, replaced, clock)
    ensures Kept(pages[|pages|..], replaced, clock[|pages|..]) == []
  {
    assert pages[0..] == pages && clock[0..] == clock && pages[|pages|..] == [];
  }

  /** Nothing under the key is kept, so forgetting the key keeps the same. */
  lemma {:induction false} KeptWithout<K(!new), V(!new)>(pages: seq<Stored<K, V>>, key: K, clock: seq<int>)
    requires |clock| == |pages| && forall e | e in pages :: e.key != key
    ensures Kept(pages, Some(key), clock) == Kept(pages, None, clock)
  {
    if pages != [] {
      assert pages[0] in pages;
      KeptWithout(pages[1..], key, clock[1..]);
    }
  }

  ghost predicate DistinctEntries<K(!new), V(!new)>(pages: seq<Stored<K, V>>) {
    forall i, j | 0 <= i < j < |pages| :: pages[i].key != pages[j].key
  }

  /** With distinct keys, removing the entry found removes the key. */
  lemma {:induction false} RemoveIsKept<K(!new), V(!new)>(pages: seq<Stored<K, V>>, at: nat, clock: seq<int>)
    requires |clock| == |pages| && DistinctEntries(pages) && at < |Kept(pages, None, clock)|
    ensures var live := Kept(pages, None, clock);
            live[..at] + live[at + 1..] == Kept(pages, Some(live[at].key), clock)
  {
    var live, rest := Kept(pages, None, clock), Kept(pages[1..], None, clock[1..]);
    if pages[0].expires <= clock[0] {
      RemoveIsKept(pages[1..], at, clock[1..]);
    } else if at == 0 {
      KeptWithout(pages[1..], pages[0].key, clock[1..]);
      assert live[..0] + live[1..] == rest;
    } else {
      RemoveIsKept(pages[1..], at - 1, clock[1..]);
      KeptMembers(pages[1..], None, clock[1..]);
      assert rest[at - 1] in pages[1..];
      assert live[..at] + live[at + 1..] == [pages[0]] + (rest[..at - 1] + rest[at..]);
    }
  }

  // ----- the cache object -----

  class Memory<K(==, !new), V(!new)> {
    var pages: seq<Stored<K, V>>
    const maxPages: nat
    const ttl: nat
    ghost var log: seq<Touch<K, V>>
    ghost var latest: int

    ghost predicate Valid()
      reads this
    {
      Remembers(pages, log, latest, maxPages)
    }

    constructor (maxPages: nat, ttl: nat)
      ensures Valid() && pages == [] && log == [] && this.maxPages == maxPages && this.ttl == ttl
    {
      pages, log := [], [];
      this.maxPages, this.ttl := maxPages, ttl;
    }

    method Retain(replaced: Option<K>, clock: seq<int>)
      requires |clock| == |pages|
      modifies this`pages
      ensures pages == Kept(old(pages), replaced, clock)
    {
      hide Kept;
      var kept := [];
      KeptEnd(pages, replaced, clock);
      for i := 0 to |pages|
        invariant pages == old(pages)
        invariant kept + Kept(pages[i..], replaced, clock[i..]) == Kept(pages, replaced, clock)
      {
        KeptFrom(pages, i, replaced, clock);
        if pages[i].expires > clock[i] && replaced != Some(pages[i].key) {
          kept := kept + [pages[i]];
        }
      }
      pages := kept;
    }

    /** The page under `key`, moved to the back of the queue; `clock` holds the readings taken from `start` to `end`. */
    method Get(key: K, clock: seq<int>, ghost start: int, ghost end: int) returns (value: Option<V>)
      requires Valid() && latest <= start && Readings(pages, clock, start, end)
      modifies this
      ensures Valid() && latest == end
      ensures pages == AfterGet(old(pages), key, clock) && log == LogOfGet(old(pages), old(log), key, clock)
      ensures value.Some? ==> exists expires | expires > start :: Latest(old(log), key) == Some((value.value, expires))
      ensures Latest(old(log), key).Some? && Latest(old(log), key).value.1 > end && |Since(old(log), key)| < maxPages
              ==> value == Some(Latest(old(log), key).value.0)
    {
      hide Since, Latest, Remembers;
      ghost var before := pages;
      RememberedLater(before, log, latest, start, maxPages);
      GetRemembers(before, log, start, key, clock, end, maxPages);
      GetIsLatest(before, log, latest, start, key, clock, end, maxPages);
      Retain(None, clock);
      log, latest := LogOfGet(before, log, key, clock), end;
      var at := Position(pages, key);
      if at.None? {
        return None;
      }
      var e := pages[at.value];
      RememberedDistinct(before, old(log), old(latest), maxPages);
      RemoveIsKept(before, at.value, clock);
      pages := pages[..at.value] + pages[at.value + 1..];
      pages := pages + [e];
      value := Some(e.value);
    }

    /** Stores a page, with its expiry counted from `later`; an oversized one is ignored. */
    method Put(key: K, value: V, bytes: nat, clock: seq<int>, later: int, ghost start: int, ghost end: int)
      requires Valid() && latest <= start && Readings(pages, clock, start, end) && end <= later
      modifies this
      ensures Valid()
      ensures bytes > MAX_BODY ==> pages == old(pages) && log == old(log) && latest == old(latest)
      ensures bytes <= MAX_BODY ==> pages == AfterPut(old(pages), Stored(key, value, later + ttl), clock, maxPages)
      ensures bytes <= MAX_BODY ==> log == old(log) + [Touch.Put(key, value, later + ttl)] && latest == later
    {
      hide Latest, Since, Remembers;
      if bytes > MAX_BODY {
        return;
      }
      ghost var before := pages;
      var e := Stored(key, value, later + ttl);
      TouchSince(log, Touch.Put(key, value, e.expires), key);
      RememberedLater(before, log, latest, start, maxPages);
      TouchRemembers(pages, log, start, Touch.Put(key, value, e.expires), e, clock, end, later, maxPages);
      Retain(Some(key), clock);
      pages := pages + [e];
      ghost var full := pages;
      while |pages| > maxPages
        invariant log == old(log) && latest == old(latest)
        invariant |pages| <= |full| && pages == full[|full| - |pages|..] && (|pages| == |full| || |pages| >= maxPages)
      {
        pages := pages[1..];
      }
      log, latest := log + [Touch.Put(key, value, e.expires)], later;
    }
  }

  lemma RememberedLater<K(!new), V(!new)>(
      pages: seq<Stored<K, V>>, log: seq<Touch<K, V>>, before: int, later: int, max: nat)
    requires Remembers(pages, log, before, max) && before <= later
    ensures Remembers(pages, log, later, max)
  {
    hide Since, Latest;
  }

  lemma RememberedDistinct<K(!new), V(!new)>(pages: seq<Stored<K, V>>, log: seq<Touch<K, V>>, now: int, max: nat)
    requires Remembers(pages, log, now, max)
    ensures DistinctEntries(pages)
  {
    hide Since, Latest;
  }
}
