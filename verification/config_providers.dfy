/** Reconciling the providers that a configuration manages with those in the database. */
module ConfigProviders {

  const OFFICIAL := "official"

  /** What a provider is besides being enabled: name, address and paths. */
  type Details = nat

  datatype Provider = Provider(details: Details, enabled: bool)

  /** A configured provider; `sound` stands for the checks of its slug, name and endpoint. */
  datatype Configured = Configured(id: string, details: Details, enabled: bool, sound: bool)

  datatype Registry = Registry(providers: map<string, Provider>, managed: set<string>)

  predicate ValidProviders(ps: seq<Configured>) {
    && (forall p | p in ps :: p.id != OFFICIAL && p.sound)
    && forall i, j | 0 <= i < j < |ps| :: ps[i].id != ps[j].id
  }

  function Ids(ps: seq<Configured>): set<string> {
    set p | p in ps :: p.id
  }

  /** The row the last entry with this id leaves. */
  function Wanted(ps: seq<Configured>, id: string): Provider
    requires id in Ids(ps)
  {
    var last := ps[|ps| - 1];
    if last.id == id then Provider(last.details, last.enabled) else Wanted(ps[..|ps| - 1], id)
  }

  /** Managed providers the configuration no longer names are disabled, the named ones are as it says. */
  function Reconciled(r: Registry, ps: seq<Configured>): Registry {
    Registry(
      map id | id in r.providers.Keys + Ids(ps) ::
        if id in Ids(ps) then Wanted(ps, id)
        else if id in r.managed && id != OFFICIAL then r.providers[id].(enabled := false)
        else r.providers[id],
      r.managed + Ids(ps))
  }

  /** Applying the same configuration again changes nothing. */
  lemma ReconciledTwice(r: Registry, ps: seq<Configured>)
    ensures Reconciled(Reconciled(r, ps), ps) == Reconciled(r, ps)
  {
    hide Ids, Wanted;
  }

  /** The official provider and those no configuration ever named keep their rows. */
  lemma OthersUntouched(r: Registry, ps: seq<Configured>, id: string)
    requires ValidProviders(ps) && (id == OFFICIAL || (id !in r.managed && id !in Ids(ps)))
    ensures id in Reconciled(r, ps).providers <==> id in r.providers
    ensures id in r.providers ==> Reconciled(r, ps).providers[id] == r.providers[id]
  {
    hide Wanted;
  }

  /** Provider rows are never deleted, and a provider once managed stays managed. */
  lemma NothingForgotten(r: Registry, ps: seq<Configured>)
    ensures r.providers.Keys <= Reconciled(r, ps).providers.Keys && r.managed <= Reconciled(r, ps).managed
  {
    hide Ids, Wanted;
  }

  /** Every named row is exactly as configured, and no other managed one is enabled. */
  lemma ConfiguredExactly(r: Registry, ps: seq<Configured>, id: string)
    requires ValidProviders(ps) && id in Reconciled(r, ps).providers && id in Reconciled(r, ps).managed
             && id != OFFICIAL
    ensures var row := Reconciled(r, ps).providers[id];
            row.enabled <==> exists p :: p in ps && p.id == id && p.enabled
    ensures forall p | p in ps && p.id == id :: Reconciled(r, ps).providers[id] == Provider(p.details, p.enabled)
  {
    if id in Ids(ps) {
      WantedIs(ps, id);
    }
  }

  lemma {:induction false} WantedIs(ps: seq<Configured>, id: string)
    requires ValidProviders(ps) && id in Ids(ps)
    ensures exists p :: p in ps && p.id == id && Wanted(ps, id) == Provider(p.details, p.enabled)
    ensures forall p | p in ps && p.id == id :: Wanted(ps, id) == Provider(p.details, p.enabled)
  {
    var init, last := ps[..|ps| - 1], ps[|ps| - 1];
    assert ps == init + [last];
    if last.id == id {
      assert last in ps;
    } else {
      assert ValidProviders(init) by {
        assert forall p | p in init :: p in ps;
      }
      assert id in Ids(init);
      WantedIs(init, id);
    }
  }

  // ----- the statements of `reconcile_providers` -----

  class Tables {
    var providers: map<string, Provider>
    var managed: set<string>

    function Contents(): Registry
      reads this
    {
      Registry(providers, managed)
    }

    constructor (r: Registry)
      ensures Contents() == r
    {
      providers, managed := r.providers, r.managed;
    }

    /** One provider is inserted or takes the configured values. */
    method Upsert(p: Configured)
      modifies this`providers
      ensures providers == old(providers)[p.id := Provider(p.details, p.enabled)]
    {
      providers := providers[p.id := Provider(p.details, p.enabled)];
    }

    /** `ids` is what the query for the managed ids returned. */
    method DisableUnlisted(ps: seq<Configured>, ids: seq<string>)
      requires forall id :: id in ids <==> id in managed
      modifies this`providers
      ensures providers == Disabled(old(Contents()), ps)
    {
      hide Ids;
      ghost var before := providers;
      for k := 0 to |ids|
        invariant providers.Keys == before.Keys
        invariant forall id | id in before ::
                    providers[id] == if Dropped(ids[..k], ps, id) then before[id].(enabled := false) else before[id]
      {
        var id := ids[k];
        assert ids[..k + 1] == ids[..k] + [id];
        if id !in Ids(ps) && id != OFFICIAL && id in providers {
          providers := providers[id := providers[id].(enabled := false)];
        }
      }
      assert ids[..|ids|] == ids;
    }

    method ReconcileProviders(ps: seq<Configured>, ids: seq<string>) returns (ok: bool)
      requires forall id :: id in ids <==> id in managed
      modifies this
      ensures ok <==> && (forall p | p in ps :: p.sound && p.id != "official")
                      && (forall i, j | 0 <= i < j < |ps| :: ps[i].id != ps[j].id)
      ensures Contents() == if ok then Reconciled(old(Contents()), ps) else old(Contents())
    {
      hide Wanted, Ids;
      ok := ValidProviders(ps);
      if !ok {
        return;
      }
      DisableUnlisted(ps, ids);
      ghost var disabled := Contents();
      NothingNamed();
      for k := 0 to |ps|
        invariant Contents() == Upserted(disabled, ps[..k])
      {
        UpsertedNext(disabled, ps, k);
        Upsert(ps[k]);
        managed := managed + {ps[k].id};
      }
      assert ps[..|ps|] == ps;
    }
  }

  predicate Dropped(ids: seq<string>, ps: seq<Configured>, id: string) {
    id in ids && id !in Ids(ps) && id != OFFICIAL
  }

  /** The rows once the managed providers no longer named are disabled. */
  ghost function Disabled(r: Registry, ps: seq<Configured>): map<string, Provider> {
    map id | id in r.providers ::
      if id in r.managed && id !in Ids(ps) && id != OFFICIAL then r.providers[id].(enabled := false)
      else r.providers[id]
  }

  /** The rows and the managed ids once the listed providers are written. */
  ghost function Upserted(r: Registry, ps: seq<Configured>): Registry {
    Registry(map id | id in r.providers.Keys + Ids(ps) ::
             if id in Ids(ps) then Wanted(ps, id) else r.providers[id], r.managed + Ids(ps))
  }

  lemma UpsertedNext(r: Registry, ps: seq<Configured>, k: nat)
    requires k < |ps|
    ensures var u, p := Upserted(r, ps[..k]), ps[k];
            Upserted(r, ps[..k + 1])
                == Registry(u.providers[p.id := Provider(p.details, p.enabled)], u.managed + {p.id})
  {
    hide Wanted, Ids;
    IdsNext(ps, k);
    var u, p, v := Upserted(r, ps[..k]), ps[k], Upserted(r, ps[..k + 1]);
    var expected := u.providers[p.id := Provider(p.details, p.enabled)];
    assert v.providers.Keys == expected.Keys;
    forall id | id in expected ensures v.providers[id] == expected[id] {
      if id in Ids(ps[..k + 1]) {
        WantedNext(ps, k, id);
      }
    }
  }

  lemma NothingNamed()
    ensures Ids([]) == {}
  {
  }

  lemma IdsNext(ps: seq<Configured>, k: nat)
    requires k < |ps|
    ensures Ids(ps[..k + 1]) == Ids(ps[..k]) + {ps[k].id}
  {
    assert ps[..k + 1] == ps[..k] + [ps[k]];
  }

  lemma WantedNext(ps: seq<Configured>, k: nat, id: string)
    requires k < |ps| && id in Ids(ps[..k + 1])
    ensures id != ps[k].id ==> id in Ids(ps[..k])
    ensures Wanted(ps[..k + 1], id) == if id == ps[k].id then Provider(ps[k].details, ps[k].enabled)
              else Wanted(ps[..k], id)
  {
    IdsNext(ps, k);
    var next := ps[..k + 1];
    assert next[..|next| - 1] == ps[..k] && next[|next| - 1] == ps[k];
  }
}
