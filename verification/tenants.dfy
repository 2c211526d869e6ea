/** The tenant service (Infrastructure/Tenacy/TenantService.cs): creating a
    tenant and seeding its identity data, activating, deactivating and
    extending its subscription. */
module Tenancy {
  import opened Common
  import opened Errors
  import opened TenantInfo
  import opened Identity
  import opened AppSeeder

  /** The tenant store, keyed by tenant Id, and each tenant's identity data,
      keyed by the Id of the tenant it belongs to. */
  datatype Platform = Platform(tenants: map<string, Tenant>, identities: map<string, Store>)

  /** The identity data of tenant `id`; nothing has been stored for a new tenant. */
  function IdentityOf(pl: Platform, id: string): Store {
    if id in pl.identities then pl.identities[id] else EmptyStore
  }

  /** CreateTenantRequest */
  datatype CreateTenantRequest = CreateTenantRequest(
    identifier: Option<string>,
    name: Option<string>,
    connectionString: Option<string>,
    email: Option<string>,
    firstName: Option<string>,
    lastName: Option<string>,
    isActive: bool,
    validUpTo: int)

  /** The message of the NullReferenceException raised when a missing tenant is dereferenced. */
  const NullReferenceMessage: string := "Object reference not set to an instance of an object."

  function MissingTenant(): Exception {
    Fault(NullReference, NullReferenceMessage, None)
  }

  function DuplicateIdentifierMessage(identifier: string): string {
    "A tenant with identifier '" + identifier + "' already exists."
  }

  /** The connection string a new tenant gets: the configured default when
      the request leaves it blank or sends the placeholder "string". */
  function ResolveConnectionString(requested: Option<string>, defaultConnection: Option<string>): (r: Option<string>)
    ensures !IsNullOrWhiteSpace(requested) && requested != Some("string") ==> r == requested
    ensures IsNullOrWhiteSpace(requested) || requested == Some("string") ==> r == defaultConnection
  {
    if IsNullOrWhiteSpace(requested) || requested == Some("string") then defaultConnection else requested
  }

  /** The tenant record built from a request; `newGuid` stands for the
      Guid.NewGuid() used as Id when no identifier is given. */
  function NewTenant(req: CreateTenantRequest, defaultConnection: Option<string>, newGuid: string): (t: Tenant)
    ensures !IsNullOrWhiteSpace(req.identifier) ==> t.id == req.identifier.value
    ensures IsNullOrWhiteSpace(req.identifier) ==> t.id == newGuid
    ensures t.identifier == req.identifier
    ensures t.connectionString == ResolveConnectionString(req.connectionString, defaultConnection)
    ensures && t.name == req.name && t.email == req.email
            && t.firstName == req.firstName && t.lastName == req.lastName
            && t.isActive == req.isActive && t.validUpTo == req.validUpTo
  {
    Tenant(
      id := if IsNullOrWhiteSpace(req.identifier) then newGuid else req.identifier.value,
      identifier := req.identifier,
      name := req.name,
      connectionString := ResolveConnectionString(req.connectionString, defaultConnection),
      email := req.email,
      firstName := req.firstName,
      lastName := req.lastName,
      isActive := req.isActive,
      validUpTo := req.validUpTo)
  }

  /** The connection string chosen is one of the two offered, and it is
      neither blank nor the placeholder unless the default is. */
  lemma ResolvedConnectionUsable(requested: Option<string>, defaultConnection: Option<string>)
    ensures var r := ResolveConnectionString(requested, defaultConnection);
      && (r == requested || r == defaultConnection)
      && (IsNullOrWhiteSpace(r) ==> r == defaultConnection)
      && (r == Some("string") ==> defaultConnection == Some("string"))
  {
  }

  /** A tenant created under a fresh Id is stored with a connection string
      that is neither blank nor the placeholder unless the default is, and
      with the request's own values otherwise. */
  lemma CreatedTenantConnectionUsable(pl: Platform, req: CreateTenantRequest, defaultConnection: Option<string>,
                                      newGuid: string, env: SeedEnv)
    requires CreateTenant(pl, req, defaultConnection, newGuid, env).Ok?
    requires NewTenant(req, defaultConnection, newGuid).id !in pl.tenants
    ensures var t := CreateTenant(pl, req, defaultConnection, newGuid, env).value.0.tenants[NewTenant(req, defaultConnection, newGuid).id];
      && (IsNullOrWhiteSpace(t.connectionString) ==> t.connectionString == defaultConnection)
      && (t.connectionString == Some("string") ==> defaultConnection == Some("string"))
      && t.identifier == req.identifier && t.name == req.name && t.isActive == req.isActive
  {
  }

  /** CreateTenantAsync: refuse a non-blank identifier that is already a
      tenant's Id with a 409 conflict; otherwise add the tenant (the store's
      TryAdd leaves an existing Id alone), seed the new tenant's identity
      data, and return the requested identifier. */
  function CreateTenant(pl: Platform, req: CreateTenantRequest, defaultConnection: Option<string>,
                        newGuid: string, env: SeedEnv): (r: Result<(Platform, Option<string>), Exception>)
    ensures r.Err? <==> !IsNullOrWhiteSpace(req.identifier) && req.identifier.value in pl.tenants
    ensures r.Err? ==> r.error == Conflict([DuplicateIdentifierMessage(req.identifier.value)], StatusConflict)
    ensures r.Ok? ==> var (pl', identifier) := r.value;
      var t := NewTenant(req, defaultConnection, newGuid);
      && identifier == req.identifier
      && pl'.tenants.Keys == pl.tenants.Keys + {t.id}
      && (t.id !in pl.tenants ==> pl'.tenants[t.id] == t)
      && (forall id :: id in pl.tenants ==> pl'.tenants[id] == pl.tenants[id])
      && pl'.identities.Keys == pl.identities.Keys + {t.id}
      && (forall id :: id in pl.identities && id != t.id ==> pl'.identities[id] == pl.identities[id])
      && pl'.identities[t.id] == InitializeDatabase(IdentityOf(pl, t.id), t, env)
  {
    if !IsNullOrWhiteSpace(req.identifier) && req.identifier.value in pl.tenants then
      Err(Conflict([DuplicateIdentifierMessage(req.identifier.value)], StatusConflict))
    else
      var t := NewTenant(req, defaultConnection, newGuid);
      var tenants := if t.id in pl.tenants then pl.tenants else pl.tenants[t.id := t];
      var seeded := InitializeDatabase(IdentityOf(pl, t.id), t, env);
      Ok((Platform(tenants, pl.identities[t.id := seeded]), req.identifier))
  }

  /** ActivateTenantAsync: mark the tenant active and return its identifier. */
  function Activate(pl: Platform, id: string): (r: Result<(Platform, Option<string>), Exception>)
    ensures r.Err? <==> id !in pl.tenants
    ensures r.Err? ==> r.error == MissingTenant()
    ensures r.Ok? ==>
      && Updated(pl, r.value.0, id) && r.value.0.tenants[id].isActive
      && r.value.0.tenants[id].(isActive := pl.tenants[id].isActive) == pl.tenants[id]
      && r.value.1 == pl.tenants[id].identifier
  {
    if id !in pl.tenants then Err(MissingTenant())
    else
      var t := pl.tenants[id];
      Ok((pl.(tenants := pl.tenants[id := t.(isActive := true)]), t.identifier))
  }

  /** DeactivateTenantAsync: mark the tenant inactive and return its identifier. */
  function Deactivate(pl: Platform, id: string): (r: Result<(Platform, Option<string>), Exception>)
    ensures r.Err? <==> id !in pl.tenants
    ensures r.Err? ==> r.error == MissingTenant()
    ensures r.Ok? ==>
      && Updated(pl, r.value.0, id) && !r.value.0.tenants[id].isActive
      && r.value.0.tenants[id].(isActive := pl.tenants[id].isActive) == pl.tenants[id]
      && r.value.1 == pl.tenants[id].identifier
  {
    if id !in pl.tenants then Err(MissingTenant())
    else
      var t := pl.tenants[id];
      Ok((pl.(tenants := pl.tenants[id := t.(isActive := false)]), t.identifier))
  }

  /** UpdateSubscriptionAsync: set the tenant's ValidUpTo and return its identifier. */
  function UpdateSubscription(pl: Platform, id: string, newExpiryDate: int): (r: Result<(Platform, Option<string>), Exception>)
    ensures r.Err? <==> id !in pl.tenants
    ensures r.Err? ==> r.error == MissingTenant()
    ensures r.Ok? ==>
      && Updated(pl, r.value.0, id) && r.value.0.tenants[id].validUpTo == newExpiryDate
      && r.value.0.tenants[id].(validUpTo := pl.tenants[id].validUpTo) == pl.tenants[id]
      && r.value.1 == pl.tenants[id].identifier
  {
    if id !in pl.tenants then Err(MissingTenant())
    else
      var t := pl.tenants[id];
      Ok((pl.(tenants := pl.tenants[id := t.(validUpTo := newExpiryDate)]), t.identifier))
  }

  /** Only tenant `id` may differ: same tenant Ids, same other tenants, same identity data. */
  predicate Updated(pl: Platform, pl': Platform, id: string) {
    && pl'.tenants.Keys == pl.tenants.Keys
    && (forall other :: other in pl.tenants && other != id ==> pl'.tenants[other] == pl.tenants[other])
    && pl'.identities == pl.identities
  }

  /** Deactivating a tenant that activation just turned on restores the
      platform, when the tenant was inactive before. */
  lemma ActivateDeactivateRoundTrip(pl: Platform, id: string)
    requires id in pl.tenants && !pl.tenants[id].isActive
    ensures Activate(pl, id).Ok?
    ensures Deactivate(Activate(pl, id).value.0, id) == Ok((pl, pl.tenants[id].identifier))
  {
    var pl' := Activate(pl, id).value.0;
    assert pl'.tenants[id := pl.tenants[id]] == pl.tenants;
  }

  /** Activating twice is activating once. */
  lemma ActivateIdempotent(pl: Platform, id: string)
    requires id in pl.tenants
    ensures Activate(Activate(pl, id).value.0, id) == Activate(pl, id)
  {
    var pl' := Activate(pl, id).value.0;
    assert pl'.tenants[id := pl'.tenants[id]] == pl'.tenants;
  }

  /** The last subscription update wins. */
  lemma UpdateSubscriptionLastWins(pl: Platform, id: string, d1: int, d2: int)
    requires id in pl.tenants
    ensures UpdateSubscription(UpdateSubscription(pl, id, d1).value.0, id, d2).value.0
         == UpdateSubscription(pl, id, d2).value.0
  {
    var pl1 := UpdateSubscription(pl, id, d1).value.0;
    assert pl1.tenants[id := pl1.tenants[id].(validUpTo := d2)] == pl.tenants[id := pl.tenants[id].(validUpTo := d2)];
  }

  /** Creating a tenant with an identifier makes a second creation with the
      same identifier a conflict. */
  lemma CreateTwiceConflicts(pl: Platform, req: CreateTenantRequest, req2: CreateTenantRequest,
                             defaultConnection: Option<string>, g1: string, g2: string, env: SeedEnv, env2: SeedEnv)
    requires !IsNullOrWhiteSpace(req.identifier) && req2.identifier == req.identifier
    requires CreateTenant(pl, req, defaultConnection, g1, env).Ok?
    ensures CreateTenant(CreateTenant(pl, req, defaultConnection, g1, env).value.0, req2, defaultConnection, g2, env2)
         == Err(Conflict([DuplicateIdentifierMessage(req.identifier.value)], StatusConflict))
  {
  }

  /** A created tenant that did not exist yet is stored as requested and,
      when its database is reachable, has its default roles. */
  lemma CreatedTenantIsSeeded(pl: Platform, req: CreateTenantRequest, defaultConnection: Option<string>,
                              newGuid: string, env: SeedEnv)
    requires !IsNullOrWhiteSpace(req.identifier) && req.identifier.value !in pl.tenants
    requires env.hasMigrations && env.canConnect
    ensures var r := CreateTenant(pl, req, defaultConnection, newGuid, env);
      && r.Ok?
      && r.value.0.tenants[req.identifier.value].isActive == req.isActive
      && r.value.0.tenants[req.identifier.value].validUpTo == req.validUpTo
      && Roles.Admin in r.value.0.identities[req.identifier.value].roles
      && Roles.Basic in r.value.0.identities[req.identifier.value].roles
  {
  }
}
