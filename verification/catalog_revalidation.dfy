/**
 Rechecking a cached page. One query over the entry ids answers true exactly when
 the page is a list of distinct rows that the database would build today.
 */
module CatalogRevalidation {
  import opened FiniteSets
  import opened Outcomes
  import opened CatalogPages
  import opened OrderedText

  /** An element of a cached `entries` array: arbitrary JSON, possibly without a text `asset_id`. */
  datatype Cached = Row(entry: Entry) | Other(textId: Option<string>) {
    function Id(): Option<string> {
      if Row? then Some(entry.id) else textId
    }
  }

  const MAX_ENTRIES := 80

  predicate AllNamed(entries: seq<Cached>) {
    forall i | 0 <= i < |entries| :: entries[i].Id().Some?
  }

  function Names(entries: seq<Cached>): (ids: seq<string>)
    requires AllNamed(entries)
    ensures |ids| == |entries| && forall i | 0 <= i < |ids| :: ids[i] == entries[i].Id().value
  {
    seq(|entries|, i requires 0 <= i < |entries| => entries[i].Id().value)
  }

  /** The row the database builds for a visible asset. */
  function RowFor(t: Tables, account: nat, scope: Scope, id: string): Option<Entry> {
    if Visible(t, account, scope, id) then Some(Built(t, account, id)) else None
  }

  /** The ids a database may return for the recheck query: each visible id asked for, once, in any order. */
  ghost predicate Answers(t: Tables, account: nat, scope: Scope, ids: seq<string>, rows: seq<string>) {
    && (forall i, j | 0 <= i < j < |rows| :: rows[i] != rows[j])
    && forall id :: id in rows <==> id in ids && RowFor(t, account, scope, id).Some?
  }

  /** What the recheck is for: distinct ids, and every entry is the row built today. */
  predicate IsCurrent(t: Tables, account: nat, scope: Scope, entries: seq<Cached>) {
    && AllNamed(entries)
    && (forall i, j | 0 <= i < j < |entries| :: entries[i].Id() != entries[j].Id())
    && forall i | 0 <= i < |entries| ::
         entries[i].Row? && RowFor(t, account, scope, entries[i].entry.id) == Some(entries[i].entry)
  }

  /** The first entry with this id is the row built today. */
  predicate RowMatches(t: Tables, account: nat, scope: Scope, entries: seq<Cached>, id: string) {
    exists i | 0 <= i < |entries| ::
      && entries[i].Id() == Some(id) && entries[i].Row? && RowFor(t, account, scope, id) == Some(entries[i].entry)
      && forall j | 0 <= j < i :: entries[j].Id() != Some(id)
  }

  lemma {:induction false} DistinctCount(rows: seq<string>)
    requires forall i, j | 0 <= i < j < |rows| :: rows[i] != rows[j]
    ensures |Members(rows)| == |rows|
  {
    if rows != [] {
      var init, last := rows[..|rows| - 1], rows[|rows| - 1];
      DistinctCount(init);
      assert Members(rows) == Members(init) + {last};
    }
  }

  lemma {:induction false} MembersAtMost(ids: seq<string>)
    ensures |Members(ids)| <= |ids|
    ensures |Members(ids)| == |ids| ==> forall i, j | 0 <= i < j < |ids| :: ids[i] != ids[j]
  {
    if ids != [] {
      var init, last := ids[..|ids| - 1], ids[|ids| - 1];
      MembersAtMost(init);
      assert Members(ids) == Members(init) + {last};
      if |Members(ids)| == |ids| {
        assert last !in Members(init);
        assert forall i | 0 <= i < |init| :: ids[i] in Members(init);
      }
    }
  }

  /** As many rows as entries: the ids are distinct and all visible. */
  lemma CountsDecide(t: Tables, account: nat, scope: Scope, ids: seq<string>, rows: seq<string>)
    requires Answers(t, account, scope, ids, rows)
    ensures |rows| == |ids| <==> (forall i, j | 0 <= i < j < |ids| :: ids[i] != ids[j])
                                 && (forall id | id in ids :: RowFor(t, account, scope, id).Some?)
  {
    hide RowFor;
    DistinctCount(rows);
    MembersAtMost(ids);
    SubsetSize(Members(rows), Members(ids));
    if |rows| == |ids| {
      assert forall id | id in ids :: id in Members(ids);
    }
    if (forall i, j | 0 <= i < j < |ids| :: ids[i] != ids[j])
       && (forall id | id in ids :: RowFor(t, account, scope, id).Some?) {
      DistinctCount(ids);
      assert Members(ids) == Members(rows);
    }
  }

  /**
   Equal counts and matching rows are a current page: among distinct ids, the first entry
   with an id is the only one.
   */
  lemma MatchesDecide(t: Tables, account: nat, scope: Scope, entries: seq<Cached>, rows: seq<string>)
    requires AllNamed(entries) && Answers(t, account, scope, Names(entries), rows)
    ensures |rows| == |entries| && (forall id | id in rows :: RowMatches(t, account, scope, entries, id))
            <==> IsCurrent(t, account, scope, entries)
  {
    hide RowFor;
    var ids := Names(entries);
    CountsDecide(t, account, scope, ids, rows);
    assert forall i | 0 <= i < |entries| :: ids[i] == entries[i].Id().value && ids[i] in ids;
    if IsCurrent(t, account, scope, entries) {
      forall id | id in rows ensures RowMatches(t, account, scope, entries, id) {
        var i :| 0 <= i < |ids| && ids[i] == id;
        assert entries[i].Id() == Some(id);
      }
    }
    if |rows| == |entries| && forall id | id in rows :: RowMatches(t, account, scope, entries, id) {
      forall i | 0 <= i < |entries|
        ensures entries[i].Row? && RowFor(t, account, scope, entries[i].entry.id) == Some(entries[i].entry)
      {
        assert RowMatches(t, account, scope, entries, ids[i]);
      }
    }
  }

  /** The position of the first entry with this id. */
  method FindEntry(entries: seq<Cached>, id: string) returns (at: Option<nat>)
    ensures at.None? ==> forall j | 0 <= j < |entries| :: entries[j].Id() != Some(id)
    ensures at.Some? ==> at.value < |entries| && entries[at.value].Id() == Some(id)
    ensures at.Some? ==> forall j | 0 <= j < at.value :: entries[j].Id() != Some(id)
  {
    for i := 0 to |entries|
      invariant forall j | 0 <= j < i :: entries[j].Id() != Some(id)
    {
      if entries[i].Id() == Some(id) {
        return Some(i);
      }
    }
    at := None;
  }

  /** The recheck, given the rows the query returned; `None` is a page without an `entries` array. */
  method CachedPageIsCurrent(t: Tables, account: nat, scope: Scope, page: Option<seq<Cached>>,
                             rows: seq<string>) returns (current: bool)
    requires page.Some? && AllNamed(page.value) ==> Answers(t, account, scope, Names(page.value), rows)
    ensures current <==> page.Some? && |page.value| <= MAX_ENTRIES && IsCurrent(t, account, scope, page.value)
  {
    hide RowFor;
    if page.None? || |page.value| > MAX_ENTRIES {
      return false;
    }
    var entries := page.value;
    if entries == [] {
      return true;
    }
    for i := 0 to |entries|
      invariant forall j | 0 <= j < i :: entries[j].Id().Some?
    {
      if entries[i].Id().None? {
        return false;
      }
    }
    var verdicts := [];
    for k := 0 to |rows|
      invariant |verdicts| == k
      invariant forall j | 0 <= j < k :: verdicts[j] == RowMatches(t, account, scope, entries, rows[j])
    {
      var at := FindEntry(entries, rows[k]);
      var matches := && at.Some? && entries[at.value].Row?
                     && RowFor(t, account, scope, rows[k]) == Some(entries[at.value].entry);
      verdicts := verdicts + [matches];
    }
    MatchesDecide(t, account, scope, entries, rows);
    current := |rows| == |entries| && forall k | 0 <= k < |verdicts| :: verdicts[k];
  }

  function AsCached(page: Page): (r: seq<Cached>)
    ensures |r| == |page.entries| && forall i | 0 <= i < |r| :: r[i] == Row(page.entries[i])
  {
    seq(|page.entries|, i requires 0 <= i < |page.entries| => Row(page.entries[i]))
  }

  lemma AscendingDistinct(q: seq<string>)
    requires Ascending(q)
    ensures forall i, j | 0 <= i < j < |q| :: q[i] != q[j]
  {
    hide Below;
    forall i, j | 0 <= i < j < |q| ensures q[i] != q[j] {
      NotBelowItself(q[i]);
    }
  }

  /** A page just loaded passes the recheck against the same database. */
  lemma LoadedPageIsCurrent(t: Tables, r: Request)
    requires r.limit > 0
    ensures IsCurrent(t, r.account, r.scope, AsCached(LoadPage(t, r)))
  {
    hide LoadPage, Matches, Built, Below, Granted, Available, Ascending;
    var page, q := LoadPage(t, r), Ordered(Selected(t, r));
    PageIsFirst(t, r);
    OrderedMembers(Selected(t, r));
    AscendingDistinct(q);
    hide Ordered;
    forall i | 0 <= i < |page.entries|
      ensures page.entries[i].id == q[i] && RowFor(t, r.account, r.scope, q[i]) == Some(page.entries[i])
    {
      assert q[i] in Selected(t, r);
    }
  }
}
