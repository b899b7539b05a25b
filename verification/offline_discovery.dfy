/**
 Opt-in discovery of offline players: the nine-table join that the service runs
 for each queried entity, and the simple set it stands for.
 */
module OfflineDiscovery {
  import opened FiniteSets
  import opened Outcomes
  import opened OfflineTables
  import opened OfflineTransactions
  import opened OfflineInvariant

  datatype Publisher = Verified(id: nat) | CloudOffline(identity: IdentityId, binding: int)

  datatype DiscoveryStatus = NoPublisher | ActivePublisher | Ambiguous

  /** One entry of the answer; `selection` is the appearance to show. */
  datatype Entry = Entry(
    entity: EntityId,
    revision: int,
    selection: Option<int>,
    publisher: Option<Publisher>,
    status: DiscoveryStatus)

  /** One row of the inner joins. */
  datatype JoinRow = JoinRow(session: SessionId, identity: IdentityId, key: KeyId)

  predicate Joins(db: Db, s: SessionId, i: IdentityId, k: KeyId)
    requires s in db.sessions && i in db.identities && k in db.keys
  {
    var session := db.sessions[s];
    var identity := db.identities[i];
    && identity.active == Some(s) && i == session.identity && identity.binding == session.binding
    && k == session.key && db.keys[k].generation == identity.generation && db.keys[k].revokedAt.None?
    && StatusOf(db, identity.account) == Approved
    && identity.account in db.accounts
  }

  predicate Selected(db: Db, s: SessionId, i: IdentityId, entity: EntityId, t: int)
    requires s in db.sessions && i in db.identities && db.identities[i].account in db.accounts
  {
    && db.sessions[s].entity == entity
    && db.sessions[s].expiresAt > t
    && db.sessions[s].revokedAt.None?
    && !db.accounts[db.identities[i].account]
  }

  function JoinedRows(db: Db, entity: EntityId, t: int): set<JoinRow> {
    set s, i, k | s in db.sessions && i in db.identities && k in db.keys && Joins(db, s, i, k)
        && Selected(db, s, i, entity, t)
      :: JoinRow(s, i, k)
  }

  /** The left join with the stored appearance; `shown` is the lookup of its public asset. */
  function SelectionOf(db: Db, row: JoinRow, shown: map<int, int>): Option<int>
    requires row.session in db.sessions
  {
    if row.identity in db.appearances && db.appearances[row.identity].session == row.session &&
       db.appearances[row.identity].binding == db.sessions[row.session].binding &&
       db.appearances[row.identity].payload in shown
    then Some(shown[db.appearances[row.identity].payload])
    else None
  }

  // ----- what the join means -----

  /** Identities whose unexpired active session claims the entity and whose account is not disabled. */
  ghost function Publishers(db: Db, entity: EntityId, t: int): set<IdentityId> {
    set i | i in db.identities && Publishes(db, i, entity, t)
  }

  ghost predicate Publishes(db: Db, i: IdentityId, entity: EntityId, t: int)
    requires i in db.identities
  {
    && db.identities[i].active.Some?
    && db.identities[i].active.value in db.sessions
    && db.sessions[db.identities[i].active.value].entity == entity
    && t < db.sessions[db.identities[i].active.value].expiresAt
    && ActiveAccount(db, db.identities[i].account)
  }

  ghost function RowOf(db: Db, i: IdentityId): JoinRow
    requires i in db.identities && db.identities[i].active.Some? && db.identities[i].active.value in db.sessions
  {
    JoinRow(db.identities[i].active.value, i, db.sessions[db.identities[i].active.value].key)
  }

  /** The join returns the active session of each publisher, and nothing else. */
  lemma JoinIsPublishers(db: Db, entity: EntityId, t: int)
    requires Inv(db)
    ensures forall row | row in JoinedRows(db, entity, t) ::
              row.identity in Publishers(db, entity, t) && row == RowOf(db, row.identity)
    ensures forall i | i in Publishers(db, entity, t) :: RowOf(db, i) in JoinedRows(db, entity, t)
  {
    forall i | i in Publishers(db, entity, t) ensures RowOf(db, i) in JoinedRows(db, entity, t) {
      var row := RowOf(db, i);
      assert Joins(db, row.session, i, row.key) && Selected(db, row.session, i, entity, t);
    }
  }

  lemma {:induction false} SameSize(rows: set<JoinRow>, owners: set<IdentityId>)
    requires forall r | r in rows :: r.identity in owners
    requires forall r, q | r in rows && q in rows && r.identity == q.identity :: r == q
    requires forall i | i in owners :: exists r :: r in rows && r.identity == i
    ensures |rows| == |owners|
    decreases |rows|
  {
    if rows == {} {
      assert owners == {};
    } else {
      var r :| r in rows;
      forall i | i in owners - {r.identity} ensures exists q :: q in rows - {r} && q.identity == i {
        var q :| q in rows && q.identity == i;
        assert q in rows - {r};
      }
      SameSize(rows - {r}, owners - {r.identity});
    }
  }

  /** In a safe state the join has exactly one row per publisher. */
  lemma OneRowPerPublisher(db: Db, entity: EntityId, t: int)
    requires Inv(db)
    ensures |JoinedRows(db, entity, t)| == |Publishers(db, entity, t)|
  {
    JoinIsPublishers(db, entity, t);
    var rows := JoinedRows(db, entity, t);
    var owners := Publishers(db, entity, t);
    forall i | i in owners ensures exists r :: r in rows && r.identity == i {
      assert RowOf(db, i) in rows;
    }
    hide JoinedRows, Publishers, Inv;
    SameSize(rows, owners);
  }

  // ----- one entry -----

  predicate Decided(entry: Entry) {
    entry.publisher.Some? || entry.status == Ambiguous
  }

  /** What discovery makes of one entry, in terms of the publishers alone. */
  ghost function Discovered(db: Db, entry: Entry, shown: map<int, int>, t: int): Entry
    requires Inv(db)
  {
    var owners := Publishers(db, entry.entity, t);
    if Decided(entry) || owners == {} then entry
    else if |owners| > 1 then entry.(status := Ambiguous)
    else
      var i :| i in owners;
      var appearance := if i in db.appearances then Some(db.appearances[i].payload) else None;
      entry.(publisher := Some(CloudOffline(i, db.identities[i].binding)),
             revision := db.identities[i].appearance,
             selection := if appearance.Some? && appearance.value in shown then Some(shown[appearance.value]) else None,
             status := ActivePublisher)
  }

  /** What the loop body computes from the rows of the join. */
  function FromRows(db: Db, entry: Entry, rows: set<JoinRow>, shown: map<int, int>): Entry
    requires forall row | row in rows :: row.session in db.sessions && row.identity in db.identities
  {
    if |rows| == 1 then
      assert exists row :: row in rows by { assert rows != {}; }
      SingletonUnique(rows);
      var row :| row in rows;
      entry.(publisher := Some(CloudOffline(row.identity, db.identities[row.identity].binding)),
             revision := db.identities[row.identity].appearance,
             selection := SelectionOf(db, row, shown),
             status := ActivePublisher)
    else if |rows| > 1 then entry.(status := Ambiguous)
    else entry
  }

  /** The rows of the join lead to the entry the publishers lead to. */
  lemma FromRowsIsDiscovered(db: Db, entry: Entry, shown: map<int, int>, t: int)
    requires Inv(db) && !Decided(entry)
    ensures FromRows(db, entry, JoinedRows(db, entry.entity, t), shown) == Discovered(db, entry, shown, t)
  {
    var rows := JoinedRows(db, entry.entity, t);
    var owners := Publishers(db, entry.entity, t);
    JoinIsPublishers(db, entry.entity, t);
    OneRowPerPublisher(db, entry.entity, t);
    if |rows| == 1 {
      SingletonUnique(rows);
      SingletonUnique(owners);
      var row :| row in rows;
      assert row.identity in owners;
      assert row.identity in db.appearances ==>
        db.appearances[row.identity].session == row.session &&
        db.appearances[row.identity].binding == db.sessions[row.session].binding;
    } else if |rows| == 0 {
      assert owners == {};
    }
  }

  /**
   An undecided entry is reported with an offline publisher exactly when one identity
   publishes its entity, with that identity's revisions and its stored appearance if that is
   shown, and as ambiguous exactly when several do; nothing else of it changes.
   */
  lemma ReportedExactly(db: Db, entry: Entry, shown: map<int, int>, t: int)
    requires Inv(db)
    ensures var reported, owners := Discovered(db, entry, shown, t), Publishers(db, entry.entity, t);
            && (Decided(entry) || owners == {} ==> reported == entry)
            && (!Decided(entry) && |owners| > 1 ==> reported == entry.(status := Ambiguous))
            && (!Decided(entry) ==>
                  && (reported.publisher.Some? <==> |owners| == 1)
                  && (reported.status == Ambiguous <==> |owners| > 1))
    ensures var reported, owners := Discovered(db, entry, shown, t), Publishers(db, entry.entity, t);
            forall i | !Decided(entry) && owners == {i} ::
              && reported.publisher == Some(CloudOffline(i, db.identities[i].binding))
              && reported.entity == entry.entity && reported.status == ActivePublisher
              && reported.revision == db.identities[i].appearance
              && (reported.selection.Some? <==> i in db.appearances && db.appearances[i].payload in shown)
              && (reported.selection.Some? ==> reported.selection.value == shown[db.appearances[i].payload])
  {
    var owners := Publishers(db, entry.entity, t);
    hide Inv, Publishers;
    if owners != {} {
      var i :| i in owners;
      assert |owners| == |owners - {i}| + 1;
    }
  }

  /** While the feature is off nobody publishes, so skipping the join loses nothing. */
  lemma NobodyWhileDisabled(db: Db, entry: Entry, shown: map<int, int>, t: int)
    requires Inv(db) && !db.enabled
    ensures Discovered(db, entry, shown, t) == entry
  {
    assert Publishers(db, entry.entity, t) == {};
  }
}
