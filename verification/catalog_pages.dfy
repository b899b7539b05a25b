/**
 Catalog discovery: which assets an account sees in a scope, and the pages a cursor
 walks through them.
 */
module CatalogPages {
  import opened Outcomes
  import opened OrderedText

  // ----- tables -----

  datatype Permission = Manage | Use | Discover | RenderRead | OtherPermission

  datatype Asset = Asset(owner: nat, current: nat, isPublic: bool)

  datatype Revision = Revision(name: string, format: string, sha: nat, length: nat,
                               thumbnail: Option<nat>, thumbnailStatus: Option<string>)

  datatype Verdict = Clean | R18 | Unknown | OtherVerdict

  datatype Scan = Scan(status: Verdict, manual: Option<Verdict>)

  /** Primary keys make each table a map. */
  datatype Tables = Tables(
    assets: map<string, Asset>, revisions: map<(string, nat), Revision>, acl: map<(string, nat), Permission>,
    deleted: set<string>, scans: map<nat, Scan>, blockR18: bool, blockUnclassified: bool)

  datatype Scope = Mine | Shared | Public | Accessible

  /** `folded` is the query in lower case, by the rules of Unicode. */
  datatype Request = Request(account: nat, scope: Scope, query: string, folded: string, after: string, limit: nat)

  /** `COALESCE(manual_status, status, 'UNKNOWN')`. */
  function VerdictOf(t: Tables, sha: nat): Verdict {
    if sha !in t.scans then Unknown
    else if t.scans[sha].manual.Some? then t.scans[sha].manual.value
    else t.scans[sha].status
  }

  /** The view of revisions that moderation leaves available. */
  predicate Available(t: Tables, id: string, revision: nat) {
    && (id, revision) in t.revisions
    && id !in t.deleted
    && var verdict := VerdictOf(t, t.revisions[(id, revision)].sha);
       !(t.blockR18 && verdict == R18) && !(t.blockUnclassified && verdict != Clean && verdict != R18)
  }

  predicate Granted(t: Tables, account: nat, scope: Scope, id: string)
    requires id in t.assets
  {
    var asset := t.assets[id];
    var held := if (id, account) in t.acl then Some(t.acl[(id, account)]) else None;
    match scope
    case Mine => asset.owner == account
    case Shared => asset.owner != account && held in {Some(Use), Some(Discover), Some(RenderRead)}
    case Public => asset.isPublic
    case Accessible =>
      asset.isPublic || asset.owner == account || held in {Some(Manage), Some(Use), Some(Discover), Some(RenderRead)}
  }

  predicate Visible(t: Tables, account: nat, scope: Scope, id: string) {
    id in t.assets && Available(t, id, t.assets[id].current) && Granted(t, account, scope, id)
  }

  // ----- search -----

  /** SQL's `lower`, which folds the letters A to Z. */
  function Lower(s: string): string {
    if s == "" then ""
    else [if 'A' <= s[0] <= 'Z' then (s[0] as int + 32) as char else s[0]] + Lower(s[1..])
  }

  /** SQL's LIKE: `%` for any run of characters, `_` for any one. */
  predicate Like(text: string, pattern: string)
    decreases |pattern|
  {
    if pattern == "" then text == ""
    else if pattern[0] == '%' then exists k | 0 <= k <= |text| :: Like(text[k..], pattern[1..])
    else text != "" && (pattern[0] == '_' || pattern[0] == text[0]) && Like(text[1..], pattern[1..])
  }

  predicate Matches(t: Tables, query: string, folded: string, id: string)
    requires id in t.assets && (id, t.assets[id].current) in t.revisions
  {
    var revision := t.revisions[(id, t.assets[id].current)];
    var needle := "%" + folded + "%";
    query == "" || Like(Lower(id), needle) || Like(Lower(revision.name), needle) || Like(Lower(revision.format), needle)
  }

  // ----- one page -----

  /** An entry of a page, as built from the joined row. */
  datatype Entry = Entry(id: string, revision: nat, name: string, format: string, sha: nat, length: nat, isPublic: bool,
                         thumbnail: Option<(bool, string, nat)>, thumbnailStatus: string, owned: bool, owner: nat)

  datatype Page = Page(entries: seq<Entry>, cursor: Option<string>, more: bool, scope: Scope, query: string)

  function Built(t: Tables, account: nat, id: string): Entry
    requires id in t.assets && (id, t.assets[id].current) in t.revisions
  {
    var asset := t.assets[id];
    var r := t.revisions[(id, asset.current)];
    var ready := r.thumbnailStatus == Some("ready") && r.thumbnail.Some?;
    Entry(id, asset.current, r.name, r.format, r.sha, r.length, asset.isPublic,
      if ready then Some((asset.isPublic, id, asset.current)) else None,
      if ready then "ready" else if r.thumbnailStatus == Some("failed") then "failed" else "pending",
      asset.owner == account, asset.owner)
  }

  /** The assets a request selects, its cursor included. */
  ghost function Selected(t: Tables, r: Request): set<string> {
    set id | id in t.assets && Visible(t, r.account, r.scope, id) && Matches(t, r.query, r.folded, id)
        && (r.after == "" || Below(r.after, id))
  }

  ghost function Entries(t: Tables, account: nat, ids: seq<string>): (es: seq<Entry>)
    requires forall id | id in ids :: id in t.assets && (id, t.assets[id].current) in t.revisions
    ensures |es| == |ids| && forall i | 0 <= i < |ids| :: es[i] == Built(t, account, ids[i]) && es[i].id == ids[i]
  {
    seq(|ids|, i requires 0 <= i < |ids| => Built(t, account, ids[i]))
  }

  /** At most `limit + 1` rows in ascending order; the extra row only tells that there are more. */
  ghost function Rows(t: Tables, r: Request): (ids: seq<string>)
    ensures forall id | id in ids :: id in Selected(t, r)
  {
    OrderedMembers(Selected(t, r));
    var q := Ordered(Selected(t, r));
    assert forall id | id in q :: id in Members(q);
    if |q| <= r.limit + 1 then q else q[..r.limit + 1]
  }

  ghost function LoadPage(t: Tables, r: Request): Page
    requires r.limit > 0
  {
    var entries := Entries(t, r.account, Rows(t, r));
    var more := |entries| > r.limit;
    var kept := if more then entries[..r.limit] else entries;
    Page(kept, if more then Some(kept[|kept| - 1].id) else None, more, r.scope, r.query)
  }

  /** A page is the first `limit` selected assets; the cursor is the last of them when some are left. */
  lemma PageIsFirst(t: Tables, r: Request)
    requires r.limit > 0
    ensures var q, p := Ordered(Selected(t, r)), LoadPage(t, r);
            && p.more == (|q| > r.limit)
            && |p.entries| == (if |q| > r.limit then r.limit else |q|)
            && (forall i | 0 <= i < |p.entries| ::
                q[i] in Selected(t, r) && p.entries[i] == Built(t, r.account, q[i]) && p.entries[i].id == q[i])
            && p.cursor == (if |q| > r.limit then Some(q[r.limit - 1]) else None)
            && p.scope == r.scope && p.query == r.query
  {
    hide Ordered, Selected, Built;
    var q := Ordered(Selected(t, r));
    var ids := Rows(t, r);
    assert forall i | 0 <= i < |ids| :: ids[i] == q[i] && ids[i] in ids;
  }

  // ----- following the cursor -----

  ghost function Next(t: Tables, r: Request): (n: Request)
    requires r.limit > 0 && LoadPage(t, r).cursor.Some?
    ensures n == r.(after := LoadPage(t, r).cursor.value)
  {
    r.(after := LoadPage(t, r).cursor.value)
  }

  /** The next request selects what the page left over. */
  lemma NextSelectsRest(t: Tables, r: Request)
    requires r.limit > 0 && LoadPage(t, r).cursor.Some? && "" !in t.assets
    ensures Ordered(Selected(t, Next(t, r))) == Ordered(Selected(t, r))[r.limit..]
    ensures |Ordered(Selected(t, r))| > r.limit
  {
    hide Ordered, Below, Visible, Matches, LoadPage;
    var s := Selected(t, r);
    var q := Ordered(s);
    PageIsFirst(t, r);
    OrderedMembers(s);
    var last := q[r.limit - 1];
    assert last in Members(q);
    AboveIsRest(s, r.limit);
    forall id ensures id in Selected(t, Next(t, r)) <==> id in s && Below(last, id) {
      if id in t.assets && Below(last, id) && r.after != "" {
        BelowTransitive(r.after, last, id);
      }
    }
    assert Selected(t, Next(t, r)) == Above(s, last);
  }

  /** The pages a client sees when it follows the cursor over an unchanged database. */
  ghost function Walk(t: Tables, r: Request): seq<Page>
    requires r.limit > 0 && "" !in t.assets
    decreases |Ordered(Selected(t, r))|
  {
    var page := LoadPage(t, r);
    if page.cursor.None? then [page]
    else
      NextSelectsRest(t, r);
      [page] + Walk(t, Next(t, r))
  }

  ghost function Listed(pages: seq<Page>): seq<Entry> {
    if pages == [] then [] else pages[0].entries + Listed(pages[1..])
  }

  /** `k` is the larger of 1 and `n / limit` rounded up. */
  predicate IsPageCount(k: nat, n: nat, limit: nat) {
    k > 0 && n <= k * limit && (k == 1 || (k - 1) * limit < n)
  }

  lemma OnePageMore(k: nat, n: nat, limit: nat)
    requires 0 < limit < n && IsPageCount(k, n - limit, limit)
    ensures IsPageCount(k + 1, n, limit)
  {
    assert (k + 1) * limit == k * limit + limit && k * limit == (k - 1) * limit + limit;
  }

  /**
   Following the cursor visits exactly the selected assets, in ascending order and so
   each of them once, and takes as many pages as full pages need.
   */
  lemma {:induction false} WalkVisitsAll(t: Tables, r: Request)
    requires r.limit > 0 && "" !in t.assets
    ensures var q, es := Ordered(Selected(t, r)), Listed(Walk(t, r));
            && |es| == |q| == |Selected(t, r)| && Ascending(q)
            && (forall i | 0 <= i < |q| ::
                q[i] in Selected(t, r) && es[i] == Built(t, r.account, q[i]) && es[i].id == q[i])
            && IsPageCount(|Walk(t, r)|, |q|, r.limit)
    decreases |Ordered(Selected(t, r))|
  {
    hide Ordered, Selected, Built, LoadPage, Below, Next;
    var q, page := Ordered(Selected(t, r)), LoadPage(t, r);
    OrderedMembers(Selected(t, r));
    assert forall i | 0 <= i < |q| :: q[i] in Members(q);
    PageIsFirst(t, r);
    if page.cursor.None? {
      assert Listed([page]) == page.entries + [];
    } else {
      NextSelectsRest(t, r);
      WalkVisitsAll(t, Next(t, r));
      OnePageMore(|Walk(t, Next(t, r))|, |q|, r.limit);
      assert ([page] + Walk(t, Next(t, r)))[1..] == Walk(t, Next(t, r));
    }
  }
}
