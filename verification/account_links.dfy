/**
 Verified game identities, the accounts that own them and the one-to-one links between
 web and Cloud accounts. Each operation is one transaction.
 */
module AccountLinks {
  import opened FiniteSets
  import opened Outcomes

  type Account = nat
  type IdentityId = nat

  datatype Source = Official | Yggdrasil(provider: nat) | Offline

  datatype Profile = Profile(source: Source, uuid: nat)

  datatype Row = Row(account: Account, profile: Profile, name: string, verified: bool)

  /** `accounts` maps an account to its disabled flag. */
  datatype Db = Db(
    accounts: map<Account, bool>, enabled: set<Source>,
    identities: map<IdentityId, Row>, links: map<Account, Account>)

  datatype Error = NotFound | AlreadyLinked | NotLinked | Untrusted | Unauthenticated | AccessDenied | ConstraintFailed

  datatype Outcome = Outcome(db: Db, reply: Result<Account, Error>)

  predicate Game(row: Row) {
    !row.profile.source.Offline?
  }

  /** The verified rows of a profile. */
  function Verified(db: Db, p: Profile): set<IdentityId> {
    set i | i in db.identities && db.identities[i].profile == p && db.identities[i].verified
  }

  function Owners(db: Db, p: Profile): set<Account> {
    set i | i in Verified(db, p) :: db.identities[i].account
  }

  predicate ActiveAccount(db: Db, a: Account) {
    a in db.accounts && !db.accounts[a]
  }

  // ----- lookups -----

  function LinkedCloud(db: Db, web: Account): Account {
    if web in db.links then db.links[web] else web
  }

  ghost predicate IsCloudSide(db: Db, a: Account) {
    exists w :: w in db.links && db.links[w] == a
  }

  /** The web account linked to a Cloud account, or the account itself. */
  ghost function LinkedWeb(db: Db, cloud: Account): Account
    requires Matching(db)
  {
    if IsCloudSide(db, cloud) then
      OneWeb(db, cloud);
      var w :| w in db.links && db.links[w] == cloud;
      w
    else cloud
  }

  lemma OneWeb(db: Db, cloud: Account)
    requires Matching(db)
    ensures forall v, w | v in db.links && w in db.links && db.links[v] == cloud && db.links[w] == cloud :: v == w
  {
  }

  // ----- transactions -----

  /** Another link already holds one of the two accounts, on either side. */
  predicate LinkConflict(db: Db, web: Account, cloud: Account) {
    exists w | w in db.links ::
        (w == web && db.links[w] != cloud) || (db.links[w] == cloud && w != web) || w == cloud || db.links[w] == web
  }

  predicate Duplicate(db: Db, web: Account, cloud: Account) {
    exists i, j | i in db.identities && j in db.identities ::
      && db.identities[i].account == web && db.identities[j].account == cloud
      && db.identities[i].verified && db.identities[j].verified && Game(db.identities[i])
      && db.identities[i].profile == db.identities[j].profile
  }

  function Moved(identities: map<IdentityId, Row>, web: Account, cloud: Account): map<IdentityId, Row> {
    map i | i in identities ::
      if identities[i].account == web && identities[i].verified && Game(identities[i])
           then identities[i].(account := cloud) else identities[i]
  }

  /** Connecting a web account to a Cloud account whose ownership was proved. */
  function Connect(db: Db, web: Account, cloud: Account, audited: bool): Outcome {
    if web == cloud then Outcome(db, Ok(cloud))
    else if !ActiveAccount(db, cloud) then Outcome(db, Err(NotFound))
    else if LinkConflict(db, web, cloud) || Duplicate(db, web, cloud) then Outcome(db, Err(AlreadyLinked))
    else if web !in db.accounts || !audited then Outcome(db, Err(ConstraintFailed))
    else Outcome(db.(identities := Moved(db.identities, web, cloud), links := db.links[web := cloud]), Ok(cloud))
  }

  predicate Provisional(db: Db, account: Account, p: Profile, i: IdentityId) {
    i in db.identities && db.identities[i].account == account && db.identities[i].profile == p
        && !db.identities[i].verified
  }

  /**
   The identity a link writes: the profile's verified one, else a provisional one of the
   account, else a new one. `choice` is the row the query returned first, or the new id.
   */
  ghost predicate Chooses(db: Db, account: Account, p: Profile, choice: IdentityId) {
    if Verified(db, p) != {} then choice in Verified(db, p)
    else if exists i :: Provisional(db, account, p, i) then Provisional(db, account, p, choice)
    else choice !in db.identities
  }

  /** Inserted verified, or made verified with the name of today; the owner of an existing row stays. */
  function Confirmed(db: Db, account: Account, p: Profile, id: IdentityId, name: string): map<IdentityId, Row> {
    db.identities[id := if id in db.identities then db.identities[id].(verified := true, name := name)
                  else Row(account, p, name, true)]
  }

  function Link(db: Db, account: Option<Account>, p: Profile, choice: IdentityId, name: string): Outcome {
    if p.source !in db.enabled then Outcome(db, Err(Untrusted))
    else if account.None? then Outcome(db, Err(Unauthenticated))
    else if Owners(db, p) - {account.value} != {} then Outcome(db, Err(AlreadyLinked))
    else if account.value !in db.accounts then Outcome(db, Err(ConstraintFailed))
    else Outcome(db.(identities := Confirmed(db, account.value, p, choice, name)), Ok(account.value))
  }

  function Renamed(db: Db, p: Profile, name: Option<string>): map<IdentityId, Row> {
    map i | i in db.identities ::
      if i in Verified(db, p) && name.Some? then db.identities[i].(name := name.value) else db.identities[i]
  }

  /** A login names the single owner; several owners, or none, are refused. */
  ghost function Login(db: Db, p: Profile, name: Option<string>): Outcome {
    if p.source !in db.enabled then Outcome(db, Err(Untrusted))
    else if |Owners(db, p)| != 1 then Outcome(db, Err(NotLinked))
    else
      SingletonUnique(Owners(db, p));
      var owner :| owner in Owners(db, p);
      Outcome(db.(identities := Renamed(db, p, name)), Ok(owner))
  }

  datatype Op =
    | OpConnect(web: Account, cloud: Account, audited: bool)
    | OpLink(account: Option<Account>, profile: Profile, choice: IdentityId, name: string)
    | OpLogin(profile: Profile, canonical: Option<string>)
    // What surrounds the model: provisional identities, account administration, provider switches.
    | OpProvisional(id: IdentityId, row: Row)
    | OpSetAccount(who: Account, disabled: bool)
    | OpEnable(source: Source, on: bool)

  ghost predicate Possible(db: Db, op: Op) {
    match op
    case OpLink(account, p, choice, _) => account.Some? ==> Chooses(db, account.value, p, choice)
    case OpProvisional(id, row) => id !in db.identities && !row.verified
    case OpConnect(_, _, _) => true
    case OpLogin(_, _) => true
    case OpSetAccount(_, _) => true
    case OpEnable(_, _) => true
  }

  ghost function Step(db: Db, op: Op): Outcome {
    match op
    case OpConnect(web, cloud, audited) => Connect(db, web, cloud, audited)
    case OpLink(account, p, choice, name) => Link(db, account, p, choice, name)
    case OpLogin(p, name) => Login(db, p, name)
    case OpProvisional(id, row) => Outcome(db.(identities := db.identities[id := row]), Ok(row.account))
    case OpSetAccount(account, disabled) => Outcome(db.(accounts := db.accounts[account := disabled]), Ok(account))
    case OpEnable(source, on) =>
      Outcome(db.(enabled := if on then db.enabled + {source} else db.enabled - {source}), Ok(0))
  }

  ghost predicate PossibleRun(db: Db, ops: seq<Op>)
    decreases |ops|
  {
    ops == [] || (Possible(db, ops[0]) && PossibleRun(Step(db, ops[0]).db, ops[1..]))
  }

  ghost function Run(db: Db, ops: seq<Op>): Db
    decreases |ops|
  {
    if ops == [] then db else Run(Step(db, ops[0]).db, ops[1..])
  }

  // ----- invariants -----

  /** All verified rows of one game profile have one owner. */
  predicate SingleOwner(db: Db) {
    forall i, j | i in db.identities && j in db.identities
      && db.identities[i].verified && db.identities[j].verified && db.identities[i].profile == db.identities[j].profile
      && Game(db.identities[i]) :: db.identities[i].account == db.identities[j].account
  }

  /** Links are one-to-one, and no account is on both sides. */
  predicate Matching(db: Db) {
    && (forall v, w | v in db.links && w in db.links && db.links[v] == db.links[w] :: v == w)
    && (forall v, w | v in db.links && w in db.links :: db.links[v] != w)
  }

  lemma StepKeepsOwner(db: Db, op: Op)
    requires SingleOwner(db) && Matching(db) && Possible(db, op)
    ensures SingleOwner(Step(db, op).db) && Matching(Step(db, op).db)
  {
    match op {
      case OpConnect(web, cloud, audited) => ConnectKeepsOwner(db, web, cloud, audited);
      case OpLink(account, p, choice, name) => LinkKeepsOwner(db, account, p, choice, name);
      case OpLogin(_, _) =>
      case OpProvisional(_, _) =>
      case OpSetAccount(_, _) =>
      case OpEnable(_, _) =>
    }
  }

  lemma ConnectKeepsOwner(db: Db, web: Account, cloud: Account, audited: bool)
    requires SingleOwner(db) && Matching(db)
    ensures SingleOwner(Connect(db, web, cloud, audited).db) && Matching(Connect(db, web, cloud, audited).db)
  {
    hide Duplicate;
  }

  lemma LinkKeepsOwner(db: Db, account: Option<Account>, p: Profile, choice: IdentityId, name: string)
    requires SingleOwner(db) && (account.Some? ==> Chooses(db, account.value, p, choice))
    ensures SingleOwner(Link(db, account, p, choice, name).db)
  {
    var after := Link(db, account, p, choice, name).db;
    if after != db {
      forall j | j in after.identities && j != choice && after.identities[j].verified
          && after.identities[j].profile == after.identities[choice].profile
        ensures after.identities[j].account == after.identities[choice].account
      {
        assert j in Verified(db, p);
        OwnedBy(db, account.value, p, j);
        if choice in Verified(db, p) {
          OwnedBy(db, account.value, p, choice);
        }
      }
    }
  }

  lemma OwnedBy(db: Db, account: Account, p: Profile, i: IdentityId)
    requires Owners(db, p) - {account} == {} && i in Verified(db, p)
    ensures db.identities[i].account == account
  {
    assert db.identities[i].account in Owners(db, p);
    assert forall a | a in Owners(db, p) && a != account :: a in Owners(db, p) - {account};
  }

  /** In every reachable state a verified game profile has one owner and links are a matching. */
  lemma {:induction false} RunKeepsOwner(db: Db, ops: seq<Op>)
    requires SingleOwner(db) && Matching(db) && PossibleRun(db, ops)
    ensures SingleOwner(Run(db, ops)) && Matching(Run(db, ops))
    decreases |ops|
  {
    hide SingleOwner, Matching, Step, Possible;
    if ops != [] {
      StepKeepsOwner(db, ops[0]);
      RunKeepsOwner(Step(db, ops[0]).db, ops[1..]);
    }
  }

  // ----- consequences -----

  lemma OneOwner(db: Db, p: Profile)
    requires SingleOwner(db) && !p.source.Offline?
    ensures |Owners(db, p)| <= 1 && (Owners(db, p) == {} <==> Verified(db, p) == {})
  {
    if Verified(db, p) != {} {
      var i :| i in Verified(db, p);
      assert db.identities[i].account in Owners(db, p);
      assert Owners(db, p) == {db.identities[i].account};
    }
  }

  /** A login is never ambiguous: it fails only when no account holds the profile. */
  lemma LoginUnambiguous(db: Db, p: Profile, name: Option<string>)
    requires SingleOwner(db) && !p.source.Offline? && p.source in db.enabled
    ensures Login(db, p, name).reply.Ok? <==> Verified(db, p) != {}
    ensures forall i | i in Verified(db, p) :: Login(db, p, name).reply == Ok(db.identities[i].account)
  {
    OneOwner(db, p);
    forall i | i in Verified(db, p) ensures Owners(db, p) == {db.identities[i].account} {
      assert db.identities[i].account in Owners(db, p);
      SingletonUnique(Owners(db, p));
    }
  }

  /** The check for duplicates before connecting never finds one. */
  lemma DuplicateUnreachable(db: Db, web: Account, cloud: Account)
    requires SingleOwner(db) && web != cloud
    ensures !Duplicate(db, web, cloud)
  {
  }

  /** Connecting keeps every row and id, and moves exactly the verified game identities of the web account. */
  lemma ConnectConserves(db: Db, web: Account, cloud: Account, audited: bool)
    ensures var after := Connect(db, web, cloud, audited).db;
            && after.identities.Keys == db.identities.Keys
            && forall i | i in db.identities ::
                 && after.identities[i] == db.identities[i].(account := after.identities[i].account)
                 && (after.identities[i].account != db.identities[i].account <==>
                     Connect(db, web, cloud, audited).reply.Ok? && web != cloud
                     && db.identities[i].account == web && db.identities[i].verified && Game(db.identities[i]))
                 && (after.identities[i].account != db.identities[i].account ==> after.identities[i].account == cloud)
  {
    hide Duplicate, LinkConflict;
  }

  /** No link holds one of the two accounts, unless it is the one between them. */
  ghost predicate Connectable(db: Db, web: Account, cloud: Account) {
    && (web in db.links ==> db.links[web] == cloud) && cloud !in db.links
    && forall w | w in db.links :: db.links[w] != web && (db.links[w] == cloud ==> w == web)
  }

  /** When connecting is accepted, and the link it then leaves. */
  lemma ConnectExactly(db: Db, web: Account, cloud: Account, audited: bool)
    requires SingleOwner(db)
    ensures var o := Connect(db, web, cloud, audited);
            && (o.reply.Ok? <==> || web == cloud
                                 || (&& cloud in db.accounts && !db.accounts[cloud] && web in db.accounts && audited
                                     && Connectable(db, web, cloud)))
            && (o.reply.Ok? ==> o.reply.value == cloud)
            && (o.reply.Err? || web == cloud ==> o.db == db)
            && (o.reply.Ok? && web != cloud ==>
                  o.db == db.(identities := o.db.identities, links := db.links[web := cloud]))
  {
    if web != cloud {
      DuplicateUnreachable(db, web, cloud);
    }
    hide SingleOwner, Duplicate, Moved;
  }

  /** Another account owns a verified row of the profile. */
  ghost predicate Taken(db: Db, p: Profile, account: Account) {
    exists i :: i in db.identities && db.identities[i].profile == p && db.identities[i].verified
                && db.identities[i].account != account
  }

  lemma TakenExactly(db: Db, p: Profile, account: Account)
    ensures Taken(db, p, account) <==> Owners(db, p) - {account} != {}
  {
    if i :| i in db.identities && db.identities[i].profile == p && db.identities[i].verified
            && db.identities[i].account != account {
      assert i in Verified(db, p) && db.identities[i].account in Owners(db, p) - {account};
    }
  }

  /**
   When a link is accepted, and what it writes: one row, verified, of the profile and the
   account, with the name the provider gives. It is a new one only if the account had none
   of the profile, and no profile has two verified rows because of it.
   */
  lemma LinkExactly(db: Db, account: Option<Account>, p: Profile, choice: IdentityId, name: string)
    requires account.Some? ==> Chooses(db, account.value, p, choice)
    ensures var o := Link(db, account, p, choice, name);
            && (o.reply.Ok? <==> && p.source in db.enabled && account.Some? && account.value in db.accounts
                                 && !Taken(db, p, account.value))
            && (o.reply.Err? ==> o.db == db)
            && (o.reply.Ok? ==>
                  && o.reply.value == account.value && choice in o.db.identities
                  && o.db.identities[choice] == Row(account.value, p, name, true)
                  && o.db == db.(identities := db.identities[choice := o.db.identities[choice]])
                  && Verified(o.db, p) == (if Verified(db, p) == {} then {choice} else Verified(db, p))
                  && (choice !in db.identities ==>
                        forall i | i in db.identities :: db.identities[i].account == account.value ==>
                          db.identities[i].profile != p))
  {
    if account.Some? {
      VerifiedAfter(db, account.value, p, choice, name);
      TakenExactly(db, p, account.value);
      if choice in Verified(db, p) && Owners(db, p) - {account.value} == {} {
        OwnedBy(db, account.value, p, choice);
      }
    }
    hide Owners, Taken;
  }

  lemma VerifiedAfter(db: Db, account: Account, p: Profile, choice: IdentityId, name: string)
    requires Chooses(db, account, p, choice)
    ensures var o := Link(db, Some(account), p, choice, name);
            o.reply.Ok? ==> Verified(o.db, p) == (if Verified(db, p) == {} then {choice} else Verified(db, p))
    ensures choice !in db.identities ==>
              forall i | i in db.identities :: db.identities[i].account == account ==> db.identities[i].profile != p
  {
    hide Owners;
    if choice !in db.identities {
      forall i | i in db.identities && db.identities[i].account == account ensures db.identities[i].profile != p {
        assert i !in Verified(db, p) && !Provisional(db, account, p, i);
      }
    }
  }

  /**
   What a login writes: the name, where the provider gives one, to the verified rows of the
   profile, and nothing else.
   */
  lemma LoginExactly(db: Db, p: Profile, name: Option<string>)
    requires SingleOwner(db) && !p.source.Offline?
    ensures var o := Login(db, p, name);
            && (o.reply.Ok? <==> p.source in db.enabled
                                 && exists i :: i in db.identities && db.identities[i].profile == p
                                                && db.identities[i].verified)
            && o.db == db.(identities := o.db.identities) && o.db.identities.Keys == db.identities.Keys
            && forall i | i in db.identities ::
                 o.db.identities[i]
                 == if o.reply.Ok? && name.Some? && db.identities[i].profile == p && db.identities[i].verified
                    then db.identities[i].(name := name.value) else db.identities[i]
  {
    OneOwner(db, p);
    assert Verified(db, p) != {}
           <==> exists i :: i in db.identities && db.identities[i].profile == p && db.identities[i].verified by {
      if i :| i in db.identities && db.identities[i].profile == p && db.identities[i].verified {
        assert i in Verified(db, p);
      }
    }
    hide SingleOwner, Owners;
  }

  /** The two lookups invert each other exactly off the other side of a link. */
  lemma LookupsInvert(db: Db, x: Account)
    requires Matching(db)
    ensures LinkedWeb(db, LinkedCloud(db, x)) == x <==> !IsCloudSide(db, x)
    ensures LinkedCloud(db, LinkedWeb(db, x)) == x <==> x !in db.links
  {
    OneWeb(db, LinkedCloud(db, x));
    OneWeb(db, x);
    if x in db.links {
      assert IsCloudSide(db, db.links[x]);
    }
  }

  // ----- which account a profile logs in to -----

  /** A login session is issued to the web account linked to the profile's owner. */
  ghost function Resolved(db: Db, p: Profile): Option<Account>
    requires Matching(db)
  {
    if |Owners(db, p)| != 1 then None
    else
      SingletonUnique(Owners(db, p));
      var owner :| owner in Owners(db, p);
      Some(LinkedWeb(db, owner))
  }

  lemma ResolvedIs(db: Db, p: Profile, i: IdentityId)
    requires SingleOwner(db) && Matching(db) && !p.source.Offline? && i in Verified(db, p)
    ensures Resolved(db, p) == Some(LinkedWeb(db, db.identities[i].account))
  {
    OneOwner(db, p);
    assert db.identities[i].account in Owners(db, p);
    SingletonUnique(Owners(db, p));
  }

  /**
   Whom a profile logs in as changes only when another account, by proof of ownership,
   connects itself to that very account.
   */
  lemma LoginMovesOnlyByConnect(db: Db, op: Op, p: Profile)
    requires SingleOwner(db) && Matching(db) && Possible(db, op) && !p.source.Offline? && Resolved(db, p).Some?
    ensures Matching(Step(db, op).db)
    ensures var before, after := Resolved(db, p), Resolved(Step(db, op).db, p);
            after == before || (op.OpConnect? && op.cloud == before.value && after == Some(op.web))
  {
    StepKeepsOwner(db, op);
    OneOwner(db, p);
    var i :| i in Verified(db, p);
    var next := Step(db, op).db;
    ResolvedIs(db, p, i);
    StepKeepsVerified(db, op, p, i);
    ResolvedIs(next, p, i);
    if op.OpConnect? {
      ConnectResolved(db, op.web, op.cloud, op.audited, i);
    } else {
      hide Link, Login;
      SameOwner(db, op, i);
      SameLinks(db, next, db.identities[i].account);
    }
  }

  lemma StepKeepsVerified(db: Db, op: Op, p: Profile, i: IdentityId)
    requires Possible(db, op) && i in Verified(db, p)
    ensures i in Verified(Step(db, op).db, p)
  {
    hide Owners, LinkConflict, Duplicate;
  }

  lemma SameOwner(db: Db, op: Op, i: IdentityId)
    requires Possible(db, op) && !op.OpConnect? && i in db.identities
    ensures var next := Step(db, op).db;
            next.links == db.links && i in next.identities && next.identities[i].account == db.identities[i].account
  {
    hide Owners, Chooses;
  }

  lemma SameLinks(db: Db, next: Db, a: Account)
    requires Matching(db) && Matching(next) && next.links == db.links
    ensures LinkedWeb(next, a) == LinkedWeb(db, a)
  {
    OneWeb(db, a);
  }

  lemma ConnectResolved(db: Db, web: Account, cloud: Account, audited: bool, i: IdentityId)
    requires Matching(db) && i in db.identities && db.identities[i].verified && Game(db.identities[i])
    requires Matching(Connect(db, web, cloud, audited).db)
    ensures var next := Connect(db, web, cloud, audited).db;
            var before, after := LinkedWeb(db, db.identities[i].account), LinkedWeb(next, next.identities[i].account);
            after == before || (cloud == before && after == web)
  {
    hide Duplicate;
    var next := Connect(db, web, cloud, audited).db;
    var x, y := db.identities[i].account, next.identities[i].account;
    if next != db {
      assert next.links[web] == cloud;
      OneWeb(next, cloud);
      OneWeb(db, x);
      OneWeb(next, y);
      if y == cloud {
        assert IsCloudSide(next, cloud);
        assert LinkedWeb(next, cloud) == web;
        if x == web {
          assert !IsCloudSide(db, web);
        } else if IsCloudSide(db, cloud) {
          assert web in db.links && db.links[web] == cloud;
        }
      } else {
        assert y == x && x != web;
        assert forall w | w in next.links && w != web :: w in db.links && next.links[w] == db.links[w];
        assert forall w | w in db.links :: w in next.links && (w == web ==> db.links[w] == cloud);
        assert IsCloudSide(next, x) <==> IsCloudSide(db, x);
      }
    }
  }

  // ----- the browser flow -----

  /** No link's web account owns a verified game identity. */
  predicate NoneStranded(db: Db) {
    forall i | i in db.identities && db.identities[i].verified && Game(db.identities[i]) ::
        db.identities[i].account !in db.links
  }

  /**
   A link strands its identity exactly when its account is the web side of a link. A game
   client links its authenticated account as it is, so this happens with no interleaving.
   */
  lemma LinkStrandsExactly(db: Db, account: Account, p: Profile, choice: IdentityId, name: string)
    requires NoneStranded(db) && Chooses(db, account, p, choice) && !p.source.Offline?
             && Link(db, Some(account), p, choice, name).reply.Ok?
    ensures NoneStranded(Link(db, Some(account), p, choice, name).db) <==> account !in db.links
  {
    var after := Link(db, Some(account), p, choice, name).db;
    if choice in Verified(db, p) {
      OwnedBy(db, account, p, choice);
    }
    assert after.identities[choice].account == account && after.identities[choice].verified
           && Game(after.identities[choice]);
  }

  lemma ConnectStrandsNone(db: Db, web: Account, cloud: Account, audited: bool)
    requires NoneStranded(db)
    ensures NoneStranded(Connect(db, web, cloud, audited).db)
  {
    hide Duplicate;
  }

  /** What others do between the flow's stages: reading the Cloud account, reading the owner, connecting, linking. */
  datatype Meanwhile = Meanwhile(first: seq<Op>, second: seq<Op>, third: seq<Op>)

  /** Where the flow stands before its last stage: refused, or about to link the profile to an account. */
  datatype Flow = Stopped(db: Db, error: Error) | AtLink(db: Db, account: Account, connected: bool)

  /**
   Linking a proved profile from a web account: to the Cloud account behind it, or, when
   another account already holds the profile, by connecting the web account to that one.
   Its stages are separate transactions.
   */
  ghost function Staged(db: Db, web: Account, p: Profile, others: Meanwhile, audited: bool): Flow {
    var cloud := LinkedCloud(db, web);
    var read := Run(db, others.first);
    var later := Run(read, others.second);
    if |Owners(read, p)| > 1 then Stopped(read, AlreadyLinked)
    else if Owners(read, p) <= {cloud} then AtLink(Run(later, others.third), cloud, false)
    else if cloud != web then Stopped(read, AlreadyLinked)
    else
      var existing :| existing in Owners(read, p);
      var outcome := Connect(later, web, existing, audited);
      if outcome.reply.Err? then Stopped(outcome.db, outcome.reply.error)
      else AtLink(Run(outcome.db, others.third), existing, true)
  }

  /** The runs the others take are possible ones. */
  ghost predicate PossibleMeanwhile(db: Db, web: Account, p: Profile, others: Meanwhile, audited: bool) {
    var read := Run(db, others.first);
    var later := Run(read, others.second);
    && PossibleRun(db, others.first) && PossibleRun(read, others.second)
    && if Owners(read, p) <= {LinkedCloud(db, web)} then PossibleRun(later, others.third)
       else forall existing | existing in Owners(read, p) ::
              PossibleRun(Connect(later, web, existing, audited).db, others.third)
  }

  /** Somebody else's accepted connection makes `web` the web side of a link. */
  ghost predicate Connects(db: Db, ops: seq<Op>, web: Account)
    decreases |ops|
  {
    ops != [] && ((ops[0].OpConnect? && ops[0].web == web && ops[0].cloud != web && Step(db, ops[0]).reply.Ok?)
                  || Connects(Step(db, ops[0]).db, ops[1..], web))
  }

  /** Links are never lost or redirected, and new ones come from accepted connections alone. */
  lemma {:induction false} RunLinks(db: Db, ops: seq<Op>, web: Account)
    requires SingleOwner(db) && Matching(db) && PossibleRun(db, ops)
    ensures SingleOwner(Run(db, ops)) && Matching(Run(db, ops))
    ensures web in Run(db, ops).links <==> web in db.links || Connects(db, ops, web)
    ensures web in db.links ==> Run(db, ops).links[web] == db.links[web]
    decreases |ops|
  {
    hide SingleOwner, Matching, Step, Possible;
    if ops != [] {
      StepKeepsOwner(db, ops[0]);
      StepLinks(db, ops[0], web);
      RunLinks(Step(db, ops[0]).db, ops[1..], web);
    }
  }

  lemma StepLinks(db: Db, op: Op, web: Account)
    ensures var next := Step(db, op);
            && (web in next.db.links <==>
                web in db.links || (op.OpConnect? && op.web == web && op.cloud != web && next.reply.Ok?))
            && (web in db.links ==> next.db.links[web] == db.links[web])
  {
    hide Owners, Duplicate;
  }

  /** Somebody connects `web` between two of the stages of a flow that does not connect it itself. */
  ghost predicate ConnectsMeanwhile(db: Db, others: Meanwhile, web: Account) {
    var read := Run(db, others.first);
    || Connects(db, others.first, web)
    || Connects(read, others.second, web)
    || Connects(Run(read, others.second), others.third, web)
  }

  /**
   When the staged flow strands: exactly when the account was unlinked at the first stage,
   the flow links it without connecting it, and somebody connects it in between. A flow that
   connects strands nothing, whatever the others do.
   */
  lemma StagedFlowStrandsExactly(db: Db, web: Account, p: Profile, others: Meanwhile, audited: bool,
                                 choice: IdentityId, name: string)
    requires SingleOwner(db) && Matching(db) && PossibleMeanwhile(db, web, p, others, audited)
    requires var flow := Staged(db, web, p, others, audited);
             && flow.AtLink? && NoneStranded(flow.db) && Chooses(flow.db, flow.account, p, choice)
             && !p.source.Offline? && Link(flow.db, Some(flow.account), p, choice, name).reply.Ok?
    ensures var flow := Staged(db, web, p, others, audited);
            var after := Link(flow.db, Some(flow.account), p, choice, name).db;
            NoneStranded(after) <==> web in db.links || flow.connected || !ConnectsMeanwhile(db, others, web)
  {
    hide *;
    var flow := Staged(db, web, p, others, audited);
    LinkStrandsExactly(flow.db, flow.account, p, choice, name);
    LastAccountLinked(db, web, p, others, audited);
  }

  /** Whether the account that the last stage links is the web side of a link by then. */
  lemma LastAccountLinked(db: Db, web: Account, p: Profile, others: Meanwhile, audited: bool)
    requires SingleOwner(db) && Matching(db) && PossibleMeanwhile(db, web, p, others, audited)
    requires Staged(db, web, p, others, audited).AtLink?
    ensures var flow := Staged(db, web, p, others, audited);
            flow.account in flow.db.links
            <==> web !in db.links && !flow.connected && ConnectsMeanwhile(db, others, web)
  {
    hide SingleOwner, Matching, PossibleRun, Run, Connects, Connect, Owners;
    var flow := Staged(db, web, p, others, audited);
    var read := Run(db, others.first);
    var later := Run(read, others.second);
    RunLinks(db, others.first, web);
    RunLinks(read, others.second, web);
    if flow.connected {
      var next := Connect(later, web, flow.account, audited).db;
      AtMostOne(Owners(read, p), flow.account);
      ConnectKeepsOwner(later, web, flow.account, audited);
      Connected(later, web, flow.account, audited);
      RunLinks(next, others.third, web);
      CloudSideUnlinked(flow.db, web);
    } else {
      RunLinks(later, others.third, web);
      if web in flow.db.links {
        CloudSideUnlinked(flow.db, web);
      }
    }
  }

  lemma CloudSideUnlinked(db: Db, web: Account)
    requires Matching(db) && web in db.links
    ensures db.links[web] !in db.links
  {
  }

  /** The flow nobody interrupts. */
  ghost function LinkFlow(db: Db, web: Account, p: Profile, choice: IdentityId, name: string, audited: bool): Outcome {
    match Staged(db, web, p, Meanwhile([], [], []), audited)
    case Stopped(stopped, error) => Outcome(stopped, Err(error))
    case AtLink(linking, account, _) => Link(linking, Some(account), p, choice, name)
  }

  lemma LinkResolves(db: Db, account: Account, p: Profile, choice: IdentityId, name: string)
    requires SingleOwner(db) && Matching(db) && !p.source.Offline? && Chooses(db, account, p, choice)
    requires Link(db, Some(account), p, choice, name).reply.Ok?
    ensures var after := Link(db, Some(account), p, choice, name).db;
            SingleOwner(after) && Matching(after) && Resolved(after, p) == Some(LinkedWeb(db, account))
  {
    var after := Link(db, Some(account), p, choice, name).db;
    LinkKeepsOwner(db, Some(account), p, choice, name);
    if choice in Verified(db, p) {
      OwnedBy(db, account, p, choice);
    }
    assert choice in Verified(after, p) && after.identities[choice].account == account;
    ResolvedIs(after, p, choice);
    SameLinks(db, after, account);
  }

  /**
   Whatever came in between, after an accepted link the profile logs in as the web account
   that linked it, exactly when that is not the Cloud side of another's link by then.
   */
  lemma StagedFlowLogsIn(db: Db, web: Account, p: Profile, others: Meanwhile, audited: bool,
                         choice: IdentityId, name: string)
    requires SingleOwner(db) && Matching(db) && PossibleMeanwhile(db, web, p, others, audited)
    requires var flow := Staged(db, web, p, others, audited);
             && flow.AtLink? && Chooses(flow.db, flow.account, p, choice)
             && !p.source.Offline? && Link(flow.db, Some(flow.account), p, choice, name).reply.Ok?
    ensures var flow := Staged(db, web, p, others, audited);
            var after := Link(flow.db, Some(flow.account), p, choice, name).db;
            Matching(after) && (Resolved(after, p) == Some(web) <==> !IsCloudSide(flow.db, web))
  {
    hide SingleOwner, PossibleRun, Run, Connect, Owners, Link, Chooses, Resolved;
    var flow := Staged(db, web, p, others, audited);
    var read := Run(db, others.first);
    var later := Run(read, others.second);
    RunLinks(db, others.first, web);
    RunLinks(read, others.second, web);
    if flow.connected {
      var next := Connect(later, web, flow.account, audited).db;
      AtMostOne(Owners(read, p), flow.account);
      ConnectKeepsOwner(later, web, flow.account, audited);
      Connected(later, web, flow.account, audited);
      RunLinks(next, others.third, web);
    } else {
      RunLinks(later, others.third, web);
    }
    LinkResolves(flow.db, flow.account, p, choice, name);
    OneWeb(flow.db, flow.account);
    assert flow.account != web ==> web in flow.db.links && flow.db.links[web] == flow.account;
  }

  /**
   Uninterrupted, a link that succeeds strands nothing, and logging in with the profile
   then leads back to the web account that linked it, unless that account is itself the
   Cloud side of another's link.
   */
  lemma FlowThenLogin(db: Db, web: Account, p: Profile, choice: IdentityId, name: string, audited: bool)
    requires SingleOwner(db) && Matching(db) && NoneStranded(db) && !p.source.Offline?
    requires Chooses(db, LinkedCloud(db, web), p, choice) && LinkFlow(db, web, p, choice, name, audited).reply.Ok?
    ensures var after := LinkFlow(db, web, p, choice, name, audited).db;
            && SingleOwner(after) && Matching(after) && NoneStranded(after)
            && (Resolved(after, p) == Some(web) <==> !IsCloudSide(db, web))
  {
    hide Link, Chooses, Resolved, SingleOwner, NoneStranded;
    var cloud := LinkedCloud(db, web);
    LookupsInvert(db, web);
    if Owners(db, p) <= {cloud} {
      LinkResolves(db, cloud, p, choice, name);
      LinkStrandsExactly(db, cloud, p, choice, name);
    } else {
      var existing :| existing in Owners(db, p) && LinkFlow(db, web, p, choice, name, audited)
        == Link(Connect(db, web, existing, audited).db, Some(existing), p, choice, name)
            && Connect(db, web, existing, audited).reply.Ok?;
      AtMostOne(Owners(db, p), existing);
      var next := Connect(db, web, existing, audited).db;
      ConnectKeepsOwner(db, web, existing, audited);
      ConnectStrandsNone(db, web, existing, audited);
      ConnectChooses(db, web, existing, audited, p, cloud, choice);
      LinkResolves(next, existing, p, choice, name);
      LinkStrandsExactly(next, existing, p, choice, name);
      OneWeb(next, existing);
      Connected(db, web, existing, audited);
      assert web in next.links && next.links[web] == existing;
    }
  }

  lemma AtMostOne(s: set<Account>, x: Account)
    requires |s| <= 1 && x in s
    ensures s == {x}
  {
    SingletonUnique(s);
  }

  lemma Connected(db: Db, web: Account, cloud: Account, audited: bool)
    requires Connect(db, web, cloud, audited).reply.Ok? && web != cloud
    ensures Connect(db, web, cloud, audited).db.links == db.links[web := cloud]
    ensures !IsCloudSide(db, web)
  {
    hide Duplicate;
  }

  /** The row chosen for a verified profile is the same after the profile's owner was connected. */
  lemma ConnectChooses(db: Db, web: Account, cloud: Account, audited: bool, p: Profile, account: Account,
                       choice: IdentityId)
    requires Chooses(db, account, p, choice) && cloud in Owners(db, p)
    ensures Chooses(Connect(db, web, cloud, audited).db, cloud, p, choice)
  {
    hide Duplicate, LinkConflict;
    var next := Connect(db, web, cloud, audited).db;
    assert Verified(next, p) == Verified(db, p);
  }

  /**
   Account 1 is connected to account 2 after a browser flow has read that it is not, and the
   flow's link strands the profile; so does a game client's that links as account 1.
   */
  lemma StaleLinkStrands()
    ensures var p := Profile(Official, 7);
            var db := Db(map[1 := false, 2 := false], {Official}, map[], map[]);
            var ops := [OpConnect(1, 2, true), OpLink(Some(LinkedCloud(db, 1)), p, 9, "name")];
            SingleOwner(db) && Matching(db) && NoneStranded(db) && PossibleRun(db, ops) && !NoneStranded(Run(db, ops))
  {
    var p := Profile(Official, 7);
    var db := Db(map[1 := false, 2 := false], {Official}, map[], map[]);
    var connect, link := OpConnect(1, 2, true), OpLink(Some(1), p, 9, "name");
    var second := db.(links := map[1 := 2]);
    assert Step(db, connect).db == second by {
      assert Moved(db.identities, 1, 2) == map[];
    }
    assert Owners(second, p) == {};
    var third := Step(second, link).db;
    assert third.identities[9] == Row(1, p, "name", true);
    assert [connect, link][1..] == [link];
    assert Run(second, [link]) == Run(third, []);
    assert PossibleRun(second, [link]);
  }

  // ----- the statements of the two transactions -----

  class Directory {
    var accounts: map<Account, bool>
    var enabled: set<Source>
    var identities: map<IdentityId, Row>
    var links: map<Account, Account>

    function Contents(): Db
      reads this
    {
      Db(accounts, enabled, identities, links)
    }

    constructor (db: Db)
      ensures Contents() == db
    {
      accounts, enabled, identities, links := db.accounts, db.enabled, db.identities, db.links;
    }

    method ConnectOwnedAccounts(web: Account, cloud: Account, audited: bool) returns (r: Result<Account, Error>)
      modifies this
      ensures Outcome(Contents(), r) == Connect(old(Contents()), web, cloud, audited)
    {
      if web == cloud {
        return Ok(cloud);
      }
      if !ActiveAccount(Contents(), cloud) {
        return Err(NotFound);
      }
      if LinkConflict(Contents(), web, cloud) {
        return Err(AlreadyLinked);
      }
      if Duplicate(Contents(), web, cloud) {
        return Err(AlreadyLinked);
      }
      var before := identities;
      identities := Moved(identities, web, cloud);
      if web !in accounts || !audited {
        identities := before;
        return Err(ConstraintFailed);
      }
      if web !in links {
        links := links[web := cloud];
      }
      return Ok(cloud);
    }

    /** The canonical name written to each listed row. */
    method Rename(existing: seq<IdentityId>, name: string)
      requires forall i | i in existing :: i in identities
      modifies this`identities
      ensures identities == map i | i in old(identities) ::
                if i in existing then old(identities)[i].(name := name) else old(identities)[i]
    {
      ghost var before := identities;
      for k := 0 to |existing|
        invariant identities.Keys == before.Keys
        invariant forall i | i in before ::
                    identities[i] == if i in existing[..k] then before[i].(name := name) else before[i]
      {
        assert existing[k] in existing && existing[..k + 1] == existing[..k] + [existing[k]];
        identities := identities[existing[k] := identities[existing[k]].(name := name)];
      }
      assert existing[..|existing|] == existing;
    }

    /** `existing` are the verified rows of the profile in id order, `provisional` what the second query finds. */
    method FinishGameIdentity(login: bool, account: Option<Account>, p: Profile, existing: seq<IdentityId>,
                              provisional: Option<IdentityId>, newId: IdentityId, name: string,
                              canonical: Option<string>)
      returns (r: Result<Account, Error>)
      requires forall i :: i in existing <==> i in Verified(Contents(), p)
      requires account.Some? && provisional.None? ==> forall i :: !Provisional(Contents(), account.value, p, i)
      requires account.Some? && provisional.Some? ==> Provisional(Contents(), account.value, p, provisional.value)
      requires newId !in identities
      modifies this
      ensures login ==> Outcome(Contents(), r) == Login(old(Contents()), p, canonical)
      ensures !login && account.Some? ==>
                Chooses(old(Contents()), account.value, p, FirstOf(existing, provisional, newId))
      ensures !login
              ==> Outcome(Contents(), r)
                  == Link(old(Contents()), account, p, FirstOf(existing, provisional, newId), name)
    {
      ghost var db := Contents();
      if account.Some? {
        FirstIsChosen(db, account.value, p, existing, provisional, newId);
      }
      hide Chooses, Verified;
      if p.source !in enabled {
        return Err(Untrusted);
      }
      ExistingRows(db, p, existing);
      var owners := set i | i in existing :: identities[i].account;
      assert owners == Owners(db, p);
      if login {
        if |owners| != 1 {
          return Err(NotLinked);
        }
        SingletonUnique(owners);
        var owner :| owner in owners;
        if canonical.Some? {
          Rename(existing, canonical.value);
        }
        assert identities == Renamed(db, p, canonical);
        return Ok(owner);
      }
      if account.None? {
        return Err(Unauthenticated);
      }
      assert forall k | 0 <= k < |existing| :: existing[k] in existing;
      if exists k | 0 <= k < |existing| :: identities[existing[k]].account != account.value {
        assert exists i | i in existing :: db.identities[i].account in Owners(db, p) - {account.value};
        return Err(AlreadyLinked);
      }
      assert Owners(db, p) - {account.value} == {};
      if account.value !in accounts {
        return Err(ConstraintFailed);
      }
      var id := FirstOf(existing, provisional, newId);
      identities := identities[id := if id in identities then identities[id].(verified := true, name := name)
                                     else Row(account.value, p, name, true)];
      return Ok(account.value);
    }
  }

  lemma ExistingRows(db: Db, p: Profile, existing: seq<IdentityId>)
    requires forall i :: i in existing <==> i in Verified(db, p)
    ensures forall i | i in existing :: i in db.identities
  {
  }

  /** The row the link writes is one the queries may yield first, or the new one. */
  lemma FirstIsChosen(db: Db, account: Account, p: Profile, existing: seq<IdentityId>, provisional: Option<IdentityId>,
                      newId: IdentityId)
    requires forall i :: i in existing <==> i in Verified(db, p)
    requires provisional.None? ==> forall i :: !Provisional(db, account, p, i)
    requires provisional.Some? ==> Provisional(db, account, p, provisional.value)
    requires newId !in db.identities
    ensures Chooses(db, account, p, FirstOf(existing, provisional, newId))
  {
    if existing == [] {
      assert Verified(db, p) == {};
    } else {
      assert existing[0] in existing;
    }
  }

  function FirstOf(existing: seq<IdentityId>, provisional: Option<IdentityId>, newId: IdentityId): IdentityId {
    if existing != [] then existing[0] else if provisional.Some? then provisional.value else newId
  }
}
