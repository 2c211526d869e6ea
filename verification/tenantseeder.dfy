/** Start-up seeding of the tenant store and of every tenant's identity data
    (Infrastructure/Tenacy/TenantDbSeeder.cs). */
module TenantSeeding {
  import opened Common
  import opened TenantInfo
  import opened Identity
  import AppSeeder
  import opened Tenancy

  /** The root tenant created on first start; `now` is DateTime.UtcNow. */
  function RootTenant(defaultConnection: Option<string>, now: int): (t: Tenant)
    ensures IsRoot(t) && t.identifier == Some(RootId) && t.isActive
    ensures t.connectionString == defaultConnection
    ensures t.validUpTo == AddYears(now, 2)
  {
    Tenant(
      id := RootId,
      identifier := Some(RootId),
      name := Some(RootName),
      connectionString := defaultConnection,
      email := Some(RootEmail),
      firstName := Some(RootFirstName),
      lastName := Some(RootLastName),
      isActive := true,
      validUpTo := AddYears(now, 2))
  }

  /** IntializeTenantDbAsync: create the root tenant when it is missing;
      give an existing root tenant the default connection string when it
      has none. No other tenant is touched. */
  function InitializeTenantDb(tenants: map<string, Tenant>, defaultConnection: Option<string>, now: int): (r: map<string, Tenant>)
    ensures r.Keys == tenants.Keys + {RootId}
    ensures forall id :: id in tenants && id != RootId ==> r[id] == tenants[id]
    ensures RootId !in tenants ==> r[RootId] == RootTenant(defaultConnection, now)
    ensures RootId in tenants && IsNullOrEmpty(tenants[RootId].connectionString) ==>
      r[RootId] == tenants[RootId].(connectionString := defaultConnection)
    ensures RootId in tenants && !IsNullOrEmpty(tenants[RootId].connectionString) ==> r == tenants
  {
    if RootId !in tenants then tenants[RootId := RootTenant(defaultConnection, now)]
    else if IsNullOrEmpty(tenants[RootId].connectionString) then
      tenants[RootId := tenants[RootId].(connectionString := defaultConnection)]
    else tenants
  }

  /** The root tenant is created at most once: a second start-up, at any
      later time, leaves the tenant store as the first one left it. */
  lemma InitializeTenantDbIdempotent(tenants: map<string, Tenant>, defaultConnection: Option<string>, now: int, later: int)
    ensures InitializeTenantDb(InitializeTenantDb(tenants, defaultConnection, now), defaultConnection, later)
         == InitializeTenantDb(tenants, defaultConnection, now)
  {
    var r := InitializeTenantDb(tenants, defaultConnection, now);
    if IsNullOrEmpty(r[RootId].connectionString) {
      assert r[RootId].connectionString == defaultConnection;
      assert r[RootId := r[RootId].(connectionString := defaultConnection)] == r;
    }
  }

  /** The connection-string fix-up done before a tenant is seeded. */
  function EnsureConnectionString(t: Tenant, defaultConnection: Option<string>): (r: Tenant)
    ensures r.(connectionString := t.connectionString) == t
    ensures !IsNullOrWhiteSpace(t.connectionString) ==> r == t
    ensures IsNullOrWhiteSpace(t.connectionString) ==> r.connectionString == defaultConnection
  {
    if IsNullOrWhiteSpace(t.connectionString) then t.(connectionString := defaultConnection) else t
  }

  lemma EnsureConnectionStringIdempotent(t: Tenant, defaultConnection: Option<string>)
    ensures EnsureConnectionString(EnsureConnectionString(t, defaultConnection), defaultConnection)
         == EnsureConnectionString(t, defaultConnection)
  {
  }

  /** The identity data of tenant `id` after its InitializeApplicationDbForTenantAsync. */
  function SeededIdentity(pl: Platform, id: string, defaultConnection: Option<string>, envFor: string -> AppSeeder.SeedEnv): Store
    requires id in pl.tenants
  {
    AppSeeder.InitializeDatabase(IdentityOf(pl, id), EnsureConnectionString(pl.tenants[id], defaultConnection), envFor(id))
  }

  /** The loop over all tenants: every tenant gets its connection string
      fixed and its own identity data seeded. `envFor` supplies what the
      database generates while tenant `id` is seeded. Seeding one tenant
      touches nothing of another, so the result does not depend on the
      order in which the store lists them. */
  function SeedAllTenants(pl: Platform, defaultConnection: Option<string>, envFor: string -> AppSeeder.SeedEnv): (pl': Platform)
    ensures pl'.tenants.Keys == pl.tenants.Keys
    ensures pl'.identities.Keys == pl.identities.Keys + pl.tenants.Keys
    ensures forall id :: id in pl.tenants ==>
      pl'.tenants[id] == EnsureConnectionString(pl.tenants[id], defaultConnection)
      && pl'.identities[id] == SeededIdentity(pl, id, defaultConnection, envFor)
    ensures forall id :: id in pl.identities && id !in pl.tenants ==> pl'.identities[id] == pl.identities[id]
  {
    Platform(
      map id | id in pl.tenants :: EnsureConnectionString(pl.tenants[id], defaultConnection),
      map id | id in pl.identities.Keys + pl.tenants.Keys ::
        if id in pl.tenants then SeededIdentity(pl, id, defaultConnection, envFor) else pl.identities[id])
  }

  /** The platform after seeding the tenants in `done`. */
  function PartlySeeded(pl: Platform, done: set<string>, defaultConnection: Option<string>, envFor: string -> AppSeeder.SeedEnv): Platform
    requires done <= pl.tenants.Keys
  {
    Platform(
      map id | id in pl.tenants ::
        if id in done then EnsureConnectionString(pl.tenants[id], defaultConnection) else pl.tenants[id],
      map id | id in pl.identities.Keys + done ::
        if id in done then SeededIdentity(pl, id, defaultConnection, envFor) else pl.identities[id])
  }

  /** One more tenant seeded. */
  lemma PartlySeededStep(pl: Platform, done: set<string>, id: string, defaultConnection: Option<string>,
                         envFor: string -> AppSeeder.SeedEnv)
    requires done <= pl.tenants.Keys && id in pl.tenants && id !in done
    ensures var p := PartlySeeded(pl, done, defaultConnection, envFor);
      var current := EnsureConnectionString(p.tenants[id], defaultConnection);
      PartlySeeded(pl, done + {id}, defaultConnection, envFor)
        == Platform(p.tenants[id := current],
                    p.identities[id := AppSeeder.InitializeDatabase(IdentityOf(p, id), current, envFor(id))])
  {
    var p := PartlySeeded(pl, done, defaultConnection, envFor);
    var q := PartlySeeded(pl, done + {id}, defaultConnection, envFor);
    var current := EnsureConnectionString(p.tenants[id], defaultConnection);
    assert IdentityOf(p, id) == IdentityOf(pl, id);
    assert q.tenants == p.tenants[id := current] by {
      assert q.tenants.Keys == p.tenants[id := current].Keys;
      forall k | k in q.tenants.Keys ensures q.tenants[k] == p.tenants[id := current][k] {
      }
    }
    var seeded := AppSeeder.InitializeDatabase(IdentityOf(p, id), current, envFor(id));
    assert q.identities == p.identities[id := seeded] by {
      assert q.identities.Keys == p.identities[id := seeded].Keys;
      forall k | k in q.identities.Keys ensures q.identities[k] == p.identities[id := seeded][k] {
      }
    }
  }

  lemma PartlySeededNone(pl: Platform, defaultConnection: Option<string>, envFor: string -> AppSeeder.SeedEnv)
    ensures PartlySeeded(pl, {}, defaultConnection, envFor) == pl
  {
  }

  lemma PartlySeededAll(pl: Platform, defaultConnection: Option<string>, envFor: string -> AppSeeder.SeedEnv)
    ensures PartlySeeded(pl, pl.tenants.Keys, defaultConnection, envFor) == SeedAllTenants(pl, defaultConnection, envFor)
  {
  }

  /** The foreach loop of IntializeDatabaseAsync, visiting the tenants in
      the order `order` lists them, computes SeedAllTenants whatever that
      order is. */
  method SeedTenantsInOrder(pl: Platform, order: seq<string>, defaultConnection: Option<string>,
                            envFor: string -> AppSeeder.SeedEnv) returns (pl': Platform)
    requires NoDuplicates(order)
    requires forall id :: id in order <==> id in pl.tenants
    ensures pl' == SeedAllTenants(pl, defaultConnection, envFor)
  {
    pl' := pl;
    ghost var done: set<string> := {};
    PartlySeededNone(pl, defaultConnection, envFor);
    for i := 0 to |order|
      invariant forall k :: k in done <==> k in order[..i]
      invariant done <= pl.tenants.Keys
      invariant pl' == PartlySeeded(pl, done, defaultConnection, envFor)
    {
      var id := order[i];
      assert id !in done by {
        assert forall j :: 0 <= j < i ==> order[j] != id;
      }
      PartlySeededStep(pl, done, id, defaultConnection, envFor);
      var current := EnsureConnectionString(pl'.tenants[id], defaultConnection);
      pl' := Platform(
        pl'.tenants[id := current],
        pl'.identities[id := AppSeeder.InitializeDatabase(IdentityOf(pl', id), current, envFor(id))]);
      done := done + {id};
      assert order[..i + 1] == order[..i] + [id];
    }
    assert order[..|order|] == order;
    assert done == pl.tenants.Keys;
    PartlySeededAll(pl, defaultConnection, envFor);
  }

  /** IntializeDatabaseAsync: the root tenant first, then every tenant's identity data. */
  function Startup(pl: Platform, defaultConnection: Option<string>, now: int, envFor: string -> AppSeeder.SeedEnv): (pl': Platform)
    ensures RootId in pl'.tenants && RootId in pl'.identities
    ensures pl'.tenants.Keys == pl.tenants.Keys + {RootId}
    ensures forall id :: id in pl'.tenants ==>
      !IsNullOrWhiteSpace(pl'.tenants[id].connectionString) || pl'.tenants[id].connectionString == defaultConnection
  {
    SeedAllTenants(pl.(tenants := InitializeTenantDb(pl.tenants, defaultConnection, now)), defaultConnection, envFor)
  }

  /** Seeding a tenant a second time changes neither the tenant nor its identity data. */
  lemma SeedOneIdempotent(pl: Platform, id: string, defaultConnection: Option<string>, envFor: string -> AppSeeder.SeedEnv)
    requires id in pl.tenants
    ensures var p1 := SeedAllTenants(pl, defaultConnection, envFor);
      && EnsureConnectionString(p1.tenants[id], defaultConnection) == p1.tenants[id]
      && SeededIdentity(p1, id, defaultConnection, envFor) == p1.identities[id]
  {
    var p1 := SeedAllTenants(pl, defaultConnection, envFor);
    var t := EnsureConnectionString(pl.tenants[id], defaultConnection);
    EnsureConnectionStringIdempotent(pl.tenants[id], defaultConnection);
    assert p1.tenants[id] == t;
    assert IdentityOf(p1, id) == AppSeeder.InitializeDatabase(IdentityOf(pl, id), t, envFor(id));
    AppSeeder.InitializeDatabaseIdempotent(IdentityOf(pl, id), t, envFor(id));
  }

  /** Seeding every tenant twice is seeding every tenant once. */
  lemma SeedAllTenantsIdempotent(pl: Platform, defaultConnection: Option<string>, envFor: string -> AppSeeder.SeedEnv)
    ensures SeedAllTenants(SeedAllTenants(pl, defaultConnection, envFor), defaultConnection, envFor)
         == SeedAllTenants(pl, defaultConnection, envFor)
  {
    var p1 := SeedAllTenants(pl, defaultConnection, envFor);
    var p2 := SeedAllTenants(p1, defaultConnection, envFor);
    forall id | id in p1.tenants
      ensures p2.tenants[id] == p1.tenants[id] && p2.identities[id] == p1.identities[id]
    {
      SeedOneIdempotent(pl, id, defaultConnection, envFor);
    }
    assert p2.tenants.Keys == p1.tenants.Keys;
    assert p2.identities.Keys == p1.identities.Keys;
    assert p2.tenants == p1.tenants;
    assert p2.identities == p1.identities;
  }

  /** After start-up the root tenant has a non-empty connection string or
      the default one, so a second start-up leaves the tenant store alone. */
  lemma TenantDbSettled(pl: Platform, defaultConnection: Option<string>, now: int, later: int,
                        envFor: string -> AppSeeder.SeedEnv)
    ensures var pl1 := Startup(pl, defaultConnection, now, envFor);
      InitializeTenantDb(pl1.tenants, defaultConnection, later) == pl1.tenants
  {
    var r := Startup(pl, defaultConnection, now, envFor).tenants;
    if IsNullOrEmpty(r[RootId].connectionString) {
      assert r[RootId].connectionString == defaultConnection;
      assert r[RootId := r[RootId].(connectionString := defaultConnection)] == r;
    }
  }

  /** Starting the application twice seeds nothing new the second time. */
  lemma StartupIdempotent(pl: Platform, defaultConnection: Option<string>, now: int, later: int,
                          envFor: string -> AppSeeder.SeedEnv)
    ensures Startup(Startup(pl, defaultConnection, now, envFor), defaultConnection, later, envFor)
         == Startup(pl, defaultConnection, now, envFor)
  {
    var pl1 := Startup(pl, defaultConnection, now, envFor);
    TenantDbSettled(pl, defaultConnection, now, later, envFor);
    assert pl1.(tenants := InitializeTenantDb(pl1.tenants, defaultConnection, later)) == pl1;
    SeedAllTenantsIdempotent(pl.(tenants := InitializeTenantDb(pl.tenants, defaultConnection, now)), defaultConnection, envFor);
  }
}
