/**
 What the catalog's rows mean: which assets a page lists in each scope, what an entry
 shows, and what a search finds, said of the tables and the text themselves.
 */
module CatalogMeaning {
  import opened Outcomes
  import opened OrderedText
  import opened CatalogPages
  import opened CatalogRevalidation
  import CatalogLinear

  // ----- which assets are shown at all -----

  /** The verdict moderation goes by: the manual one, or without one the scan's. */
  ghost predicate Judged(t: Tables, sha: nat, verdict: Verdict) {
    && sha in t.scans
    && (t.scans[sha].manual == Some(verdict) || (t.scans[sha].manual.None? && t.scans[sha].status == verdict))
  }

  /** Neither deleted nor blocked: R18 and unclassified revisions are, each under its own setting. */
  ghost predicate Shown(t: Tables, id: string) {
    && id in t.assets && id !in t.deleted && (id, t.assets[id].current) in t.revisions
    && var sha := t.revisions[(id, t.assets[id].current)].sha;
       && (t.blockR18 ==> !Judged(t, sha, R18))
       && (t.blockUnclassified ==> Judged(t, sha, Clean) || Judged(t, sha, R18))
  }

  /** The account holds a permission on the asset that the catalog knows. */
  ghost predicate Holds(t: Tables, account: nat, id: string) {
    (id, account) in t.acl && t.acl[(id, account)] != OtherPermission
  }

  /** What each scope lists, of the assets that are shown. */
  lemma VisibleExactly(t: Tables, account: nat, id: string)
    ensures Visible(t, account, Mine, id) <==> Shown(t, id) && t.assets[id].owner == account
    ensures Visible(t, account, Public, id) <==> Shown(t, id) && t.assets[id].isPublic
    ensures Visible(t, account, Shared, id)
            <==> Shown(t, id) && t.assets[id].owner != account && Holds(t, account, id)
                 && t.acl[(id, account)] != Manage
    ensures Visible(t, account, Accessible, id)
            <==> Shown(t, id) && (t.assets[id].isPublic || t.assets[id].owner == account || Holds(t, account, id))
  {
  }

  // ----- what an entry shows -----

  /** The current revision of the asset, its owner and, once it is ready, where its thumbnail is. */
  ghost predicate Describes(t: Tables, account: nat, e: Entry) {
    && e.id in t.assets && (e.id, e.revision) in t.revisions && e.revision == t.assets[e.id].current
    && Revision(e.name, e.format, e.sha, e.length, t.revisions[(e.id, e.revision)].thumbnail,
                t.revisions[(e.id, e.revision)].thumbnailStatus) == t.revisions[(e.id, e.revision)]
    && Asset(e.owner, e.revision, e.isPublic) == t.assets[e.id]
    && (e.owned <==> e.owner == account)
    && (e.thumbnail.Some? ==> e.thumbnail.value == (e.isPublic, e.id, e.revision))
    && (e.thumbnail.Some? <==> e.thumbnailStatus == "ready")
    && (e.thumbnail.Some? <==> && t.revisions[(e.id, e.revision)].thumbnailStatus == Some("ready")
                               && t.revisions[(e.id, e.revision)].thumbnail.Some?)
    && (e.thumbnailStatus == "failed" <==> t.revisions[(e.id, e.revision)].thumbnailStatus == Some("failed"))
    && e.thumbnailStatus in {"ready", "failed", "pending"}
  }

  lemma BuiltExactly(t: Tables, account: nat, e: Entry)
    ensures Describes(t, account, e)
            <==> e.id in t.assets && (e.id, t.assets[e.id].current) in t.revisions && e == Built(t, account, e.id)
  {
  }

  // ----- what a search finds -----

  const UPPER := "ABCDEFGHIJKLMNOPQRSTUVWXYZ"
  const LOWER := "abcdefghijklmnopqrstuvwxyz"

  /** The letters A to Z fold to a to z, everything else to itself. */
  ghost predicate Folds(c: char, d: char) {
    (exists k | 0 <= k < 26 :: c == UPPER[k] && d == LOWER[k]) || (c !in UPPER && c == d)
  }

  lemma FoldsExactly(c: char, d: char)
    ensures Folds(c, d) <==> d == Lower([c])[0]
  {
    assert Lower([c]) == [if 'A' <= c <= 'Z' then (c as int + 32) as char else c] + Lower([c][1..]) && [c][1..] == "";
    forall k | 0 <= k < 26 ensures UPPER[k] as int == 65 + k && LOWER[k] as int == 97 + k {
      Alphabet(k);
    }
    if 'A' <= c <= 'Z' {
      var k := c as int - 65;
      assert UPPER[k] as int == 65 + k;
      assert UPPER[k] == c;
      assert LOWER[k] as int == c as int + 32;
    }
  }

  lemma Alphabet(k: nat)
    requires k < 26
    ensures UPPER[k] as int == 65 + k && LOWER[k] as int == 97 + k
  {
  }

  lemma {:induction false} LowerAt(s: string)
    ensures |Lower(s)| == |s| && forall i | 0 <= i < |s| :: Folds(s[i], Lower(s)[i])
    ensures forall i, d | 0 <= i < |s| :: Folds(s[i], d) <==> d == Lower(s)[i]
  {
    if s != "" {
      LowerAt(s[1..]);
      hide Folds;
      var c := [if 'A' <= s[0] <= 'Z' then (s[0] as int + 32) as char else s[0]];
      assert Lower(s) == c + Lower(s[1..]);
      assert [s[0]][1..] == "" && Lower([s[0]]) == c;
      forall d ensures Folds(s[0], d) <==> d == c[0] {
        FoldsExactly(s[0], d);
      }
      hide Lower;
      forall i, d | 0 <= i < |s| ensures Folds(s[i], d) <==> d == (c + Lower(s[1..]))[i] {
        if i > 0 {
          assert s[i] == s[1..][i - 1];
        }
      }
    }
  }

  function Concat(pieces: seq<string>): string {
    if pieces == [] then "" else pieces[0] + Concat(pieces[1..])
  }

  /** The stretch of text that one pattern character stands for. */
  ghost predicate Stands(p: char, piece: string) {
    p == '%' || (p == '_' && |piece| == 1) || piece == [p]
  }

  /** The text falls into pieces, one for each character of the pattern. */
  ghost predicate FallsInto(text: string, pattern: string, pieces: seq<string>) {
    |pieces| == |pattern| && Concat(pieces) == text && forall k | 0 <= k < |pattern| :: Stands(pattern[k], pieces[k])
  }

  /** LIKE holds exactly when the text falls into pieces that the pattern's characters stand for. */
  lemma {:induction false} LikeExactly(text: string, pattern: string)
    ensures Like(text, pattern) <==> exists pieces :: FallsInto(text, pattern, pieces)
    decreases |pattern|
  {
    if pattern == "" {
      assert Like(text, pattern) ==> FallsInto(text, pattern, []);
    } else {
      if Like(text, pattern) {
        var k := if pattern[0] == '%' then LikeRest(text, pattern) else 1;
        LikeExactly(text[k..], pattern[1..]);
        var rest :| FallsInto(text[k..], pattern[1..], rest);
        FirstPiece(text, pattern, k, rest);
      }
      if pieces :| FallsInto(text, pattern, pieces) {
        var k := |pieces[0]|;
        assert text[k..] == Concat(pieces[1..]);
        assert FallsInto(text[k..], pattern[1..], pieces[1..]);
        LikeExactly(text[k..], pattern[1..]);
        assert k <= |text| && Like(text[k..], pattern[1..]);
        if pattern[0] != '%' {
          assert text[0] == pieces[0][0];
        }
      }
    }
  }

  ghost function LikeRest(text: string, pattern: string): (k: nat)
    requires pattern != "" && pattern[0] == '%' && Like(text, pattern)
    ensures k <= |text| && Like(text[k..], pattern[1..])
  {
    var k: nat :| k <= |text| && Like(text[k..], pattern[1..]);
    k
  }

  lemma FirstPiece(text: string, pattern: string, k: nat, rest: seq<string>)
    requires pattern != "" && k <= |text| && Stands(pattern[0], text[..k])
    requires FallsInto(text[k..], pattern[1..], rest)
    ensures FallsInto(text, pattern, [text[..k]] + rest)
  {
    var pieces := [text[..k]] + rest;
    assert pieces[1..] == rest && Concat(pieces) == text[..k] + text[k..] == text;
    forall j | 0 <= j < |pattern| ensures Stands(pattern[j], pieces[j]) {
      if j > 0 {
        assert pattern[1..][j - 1] == pattern[j] && pieces[j] == rest[j - 1];
      }
    }
  }

  predicate Plain(pattern: string) {
    forall c | c in pattern :: c != '%' && c != '_'
  }

  lemma {:induction false} LikePrefix(text: string, pattern: string)
    requires Plain(pattern)
    ensures Like(text, pattern + "%") <==> pattern <= text
    decreases |pattern|
  {
    var whole := pattern + "%";
    if pattern == "" {
      assert whole[1..] == "" && text[|text|..] == "";
      assert Like(text[|text|..], whole[1..]);
    } else {
      assert whole[1..] == pattern[1..] + "%" && whole[0] == pattern[0];
      assert pattern[0] in pattern;
      if text != "" {
        assert forall c | c in pattern[1..] :: c in pattern;
        LikePrefix(text[1..], pattern[1..]);
        assert text == [text[0]] + text[1..] && pattern == [pattern[0]] + pattern[1..];
      }
    }
  }

  /** A pattern without wildcards is found wherever it occurs. */
  lemma PlainOccurs(text: string, pattern: string)
    requires Plain(pattern)
    ensures Like(text, "%" + pattern + "%") <==> exists k | 0 <= k <= |text| :: pattern <= text[k..]
  {
    var whole := "%" + pattern + "%";
    assert whole[1..] == pattern + "%";
    forall k | 0 <= k <= |text| ensures Like(text[k..], whole[1..]) <==> pattern <= text[k..] {
      LikePrefix(text[k..], pattern);
    }
  }

  /** The folded text occurs at `k`, letter for letter. */
  ghost predicate OccursAt(text: string, folded: string, k: int) {
    0 <= k && k + |folded| <= |text| && forall j | 0 <= j < |folded| :: Folds(text[k + j], folded[j])
  }

  ghost predicate Occurs(text: string, folded: string) {
    exists k :: OccursAt(text, folded, k)
  }

  lemma FoldedOccurs(text: string, folded: string)
    requires Plain(folded)
    ensures Like(Lower(text), "%" + folded + "%") <==> Occurs(text, folded)
  {
    LowerAt(text);
    PlainOccurs(Lower(text), folded);
    hide Folds, Lower, Like;
    forall k | 0 <= k <= |text| ensures folded <= Lower(text)[k..] <==> OccursAt(text, folded, k) {
      if k + |folded| <= |text| {
        var part := Lower(text)[k..k + |folded|];
        assert Lower(text)[k..][..|folded|] == part;
        assert forall j | 0 <= j < |folded| :: part[j] == Lower(text)[k + j];
        assert folded <= Lower(text)[k..] <==> folded == part;
      }
    }
  }

  /** Every asset matches no query; a query without wildcards has to occur in the id, the name or the format. */
  ghost predicate FoundBy(t: Tables, r: Request, id: string)
    requires Shown(t, id)
  {
    var revision := t.revisions[(id, t.assets[id].current)];
    r.query == "" || Occurs(id, r.folded) || Occurs(revision.name, r.folded) || Occurs(revision.format, r.folded)
  }

  lemma FoundExactly(t: Tables, r: Request, id: string)
    requires Shown(t, id) && Plain(r.folded)
    ensures Matches(t, r.query, r.folded, id) <==> FoundBy(t, r, id)
  {
    var revision := t.revisions[(id, t.assets[id].current)];
    FoldedOccurs(id, r.folded);
    FoldedOccurs(revision.name, r.folded);
    FoldedOccurs(revision.format, r.folded);
    hide Like, Occurs, Lower;
  }

  // ----- whole pages -----

  /** Shown, found, and after the request's cursor. */
  ghost predicate Listable(t: Tables, r: Request, id: string) {
    Shown(t, id) && FoundBy(t, r, id) && (r.after == "" || Below(r.after, id))
  }

  lemma SelectedExactly(t: Tables, r: Request, id: string)
    requires Plain(r.folded)
    ensures id in Selected(t, r)
            <==> Visible(t, r.account, r.scope, id) && Listable(t, r, id)
  {
    hide Granted, FoundBy, Matches, Below, Judged;
    VisibleExactly(t, r.account, id);
    match r.scope {
      case Mine =>
      case Shared =>
      case Public =>
      case Accessible =>
    }
    assert Visible(t, r.account, r.scope, id) ==> Shown(t, id);
    if Shown(t, id) {
      FoundExactly(t, r, id);
    }
  }

  ghost predicate Lists(es: seq<Entry>, id: string) {
    exists i :: 0 <= i < |es| && es[i].id == id
  }

  /**
   What the walk through a listing visits, scope by scope, for a query without wildcards:
   the caller's own assets, public ones, or those of others that it holds a permission on,
   and in the widest scope all three; each of them if it is shown and found.
   */
  lemma WalkListsExactly(t: Tables, r: Request, id: string)
    requires r.limit > 0 && "" !in t.assets && Plain(r.folded)
    ensures var es := Listed(Walk(t, r));
            && (r.scope == Mine ==> (Lists(es, id) <==> Listable(t, r, id) && t.assets[id].owner == r.account))
            && (r.scope == Public ==> (Lists(es, id) <==> Listable(t, r, id) && t.assets[id].isPublic))
            && (r.scope == Shared ==>
                  (Lists(es, id) <==> && Listable(t, r, id) && t.assets[id].owner != r.account
                                      && Holds(t, r.account, id) && t.acl[(id, r.account)] != Manage))
            && (r.scope == Accessible ==>
                  (Lists(es, id) <==> && Listable(t, r, id)
                                      && (|| t.assets[id].isPublic || t.assets[id].owner == r.account
                                          || Holds(t, r.account, id))))
  {
    WalkVisitsAll(t, r);
    OrderedMembers(Selected(t, r));
    SelectedExactly(t, r, id);
    VisibleExactly(t, r.account, id);
    var q, es := Ordered(Selected(t, r)), Listed(Walk(t, r));
    hide Ordered, Walk, Selected, Listed, Listable, Visible, Shown, Holds, Built, Ascending;
    if id in Selected(t, r) {
      assert id in Members(q);
      var i :| 0 <= i < |q| && q[i] == id;
      assert es[i].id == id;
    }
  }

  /** Every entry of a page is of a shown asset that its scope grants, and describes it. */
  ghost predicate Allowed(t: Tables, account: nat, scope: Scope, e: Entry) {
    && Shown(t, e.id) && Describes(t, account, e)
    && (scope == Mine ==> e.owner == account)
    && (scope == Public ==> e.isPublic)
    && (scope == Shared ==> e.owner != account && Holds(t, account, e.id) && t.acl[(e.id, account)] != Manage)
    && (e.isPublic || e.owner == account || Holds(t, account, e.id))
  }

  lemma AllowedExactly(t: Tables, account: nat, scope: Scope, e: Entry)
    ensures Allowed(t, account, scope, e) <==> Visible(t, account, scope, e.id) && e == Built(t, account, e.id)
  {
    VisibleExactly(t, account, e.id);
    BuiltExactly(t, account, e);
    assert Visible(t, account, scope, e.id) ==> e.id in t.assets && (e.id, t.assets[e.id].current) in t.revisions;
    hide Visible, Built, Judged;
  }

  lemma PageIsAllowed(t: Tables, r: Request)
    requires r.limit > 0
    ensures forall e | e in LoadPage(t, r).entries :: Allowed(t, r.account, r.scope, e)
  {
    PageIsFirst(t, r);
    var es, q := LoadPage(t, r).entries, Ordered(Selected(t, r));
    hide LoadPage, Ordered, Built, Allowed, Visible, Matches, Below;
    forall i | 0 <= i < |es| ensures Allowed(t, r.account, r.scope, es[i]) {
      assert q[i] in Selected(t, r);
      AllowedExactly(t, r.account, r.scope, es[i]);
    }
  }

  /**
   The recheck of a cached page accepts it exactly when its ids are distinct and each entry
   describes, as the tables are now, a shown asset that the scope grants the account.
   */
  lemma CurrentExactly(t: Tables, account: nat, scope: Scope, entries: seq<Cached>)
    ensures IsCurrent(t, account, scope, entries)
            <==> && (forall i | 0 <= i < |entries| :: entries[i].Row? && Allowed(t, account, scope, entries[i].entry))
                 && (forall i, j | 0 <= i < j < |entries| :: entries[i].Id() != entries[j].Id())
  {
    hide Allowed, Visible, Built;
    forall i | 0 <= i < |entries| && entries[i].Row?
      ensures Allowed(t, account, scope, entries[i].entry)
              <==> RowFor(t, account, scope, entries[i].entry.id) == Some(entries[i].entry)
    {
      AllowedExactly(t, account, scope, entries[i].entry);
    }
  }

  /** Mine, shared and public are parts of accessible, and nothing else is in it. */
  lemma ScopesCoverAccessible(t: Tables, account: nat, id: string)
    ensures Visible(t, account, Accessible, id)
            <==> || Visible(t, account, Mine, id) || Visible(t, account, Public, id)
                 || Visible(t, account, Shared, id)
                 || (Shown(t, id) && (id, account) in t.acl && t.acl[(id, account)] == Manage)
  {
    VisibleExactly(t, account, id);
    hide Visible, Shown;
  }

  /**
   Whatever the interleaving, the entries of a returned page were all allowed at one moment
   of its request, and those of a cached page at its end.
   */
  lemma ReturnedWasAllowed(first: CatalogLinear.State, steps: seq<CatalogLinear.Step>, s: CatalogLinear.State, c: nat)
    requires CatalogLinear.Initial(first) && CatalogLinear.Reaches(first, steps, s)
    requires c in s.calls && s.calls[c].Returned?
    ensures var call := s.calls[c];
            exists m :: && call.start <= m <= call.end < |s.moments|
                        && forall e | e in call.page.entries ::
                             Allowed(s.moments[m].tables, call.request.account, call.request.scope, e)
    ensures var call := s.calls[c];
            call.cached ==>
              && call.end < |s.moments|
              && forall e | e in call.page.entries ::
                   Allowed(s.moments[call.end].tables, call.request.account, call.request.scope, e)
  {
    hide LoadPage, Allowed, CatalogLinear.Reaches;
    CatalogLinear.Linearizable(first, steps, s, c);
    var call := s.calls[c];
    var m :| && call.start <= m <= call.end < |s.moments| && call.request.limit > 0
             && call.page == LoadPage(s.moments[m].tables, call.request);
    PageIsAllowed(s.moments[m].tables, call.request);
    if call.cached {
      CatalogLinear.CachedIsCurrent(first, steps, s, c);
      CurrentExactly(s.moments[call.end].tables, call.request.account, call.request.scope, AsCached(call.page));
    }
  }
}
