/** Per-tenant seeding of default roles, their permission claims and the
    tenant's admin user (Infrastructure/Constants/ApplicationDbSeeder.cs),
    as a transformer of one tenant's identity store. */
module AppSeeder {
  import opened Common
  import opened Claims
  import opened Identity
  import opened TenantInfo
  import P = Permissions
  import Roles

  /** What the database and framework supply during seeding: whether the
      migrations exist and the database can be reached, the Id a newly
      created role or user receives, the hash of the default password, and
      whether UserManager's user validators accept a new user (the
      IdentityResult of CreateAsync, which the seeder does not inspect). */
  datatype SeedEnv = SeedEnv(
    hasMigrations: bool,
    canConnect: bool,
    roleIdFor: string -> string,
    newUserId: string,
    adminPasswordHash: string,
    userAccepted: User -> bool)

  // ---------------------------------------------------------------------
  // AssignPermissionToRole
  // ---------------------------------------------------------------------

  /** The claim a permission grants. */
  function GrantOf(p: P.Permission): Claim {
    Claim(Permission, p.Name())
  }

  function GrantsOf(perms: seq<P.Permission>): (r: seq<Claim>)
    ensures |r| == |perms|
    ensures forall i :: 0 <= i < |perms| ==> r[i] == GrantOf(perms[i])
  {
    seq(|perms|, i requires 0 <= i < |perms| => GrantOf(perms[i]))
  }

  /** The role claim row recorded for permission `p` on `role`. */
  function PermissionRoleClaim(role: Role, p: P.Permission): RoleClaim {
    RoleClaim(role.id, role.name, Permission, p.Name(), p.description, p.group)
  }

  function RoleClaimsFor(role: Role, perms: seq<P.Permission>): (r: seq<RoleClaim>)
    ensures |r| == |perms|
    ensures forall i :: 0 <= i < |perms| ==> r[i] == PermissionRoleClaim(role, perms[i])
  {
    seq(|perms|, i requires 0 <= i < |perms| => PermissionRoleClaim(role, perms[i]))
  }

  function IsMissingFrom(snapshot: seq<Claim>): P.Permission -> bool {
    (p: P.Permission) => GrantOf(p) !in snapshot
  }

  /** The permissions whose claim is not in `snapshot`, in list order. */
  function Missing(snapshot: seq<Claim>, perms: seq<P.Permission>): seq<P.Permission> {
    Filter(perms, IsMissingFrom(snapshot))
  }

  lemma RoleClaimsForOwnRole(role: Role, perms: seq<P.Permission>)
    ensures Filter(RoleClaimsFor(role, perms), HasRoleId(role.id)) == RoleClaimsFor(role, perms)
    ensures ToClaims(RoleClaimsFor(role, perms)) == GrantsOf(perms)
  {
    FilterKeepsAll(RoleClaimsFor(role, perms), HasRoleId(role.id));
  }

  lemma RoleClaimsForOtherRole(role: Role, other: Role, perms: seq<P.Permission>)
    requires other.id != role.id
    ensures Filter(RoleClaimsFor(role, perms), HasRoleId(other.id)) == []
  {
    FilterDropsAll(RoleClaimsFor(role, perms), HasRoleId(other.id));
  }

  /** The role claims AssignPermissionToRole adds: one per listed permission
      whose claim was missing from the role's claims read beforehand. */
  function AddedClaims(s: Store, perms: seq<P.Permission>, role: Role): seq<RoleClaim> {
    RoleClaimsFor(role, Missing(RoleClaimsOf(s, role), perms))
  }

  lemma AddedClaimsGrantAll(s: Store, perms: seq<P.Permission>, role: Role)
    ensures forall p :: p in perms ==>
      GrantOf(p) in RoleClaimsOf(s.(roleClaims := s.roleClaims + AddedClaims(s, perms, role)), role)
  {
    var snapshot := RoleClaimsOf(s, role);
    var missing := Missing(snapshot, perms);
    RoleClaimsOfAppend(s, AddedClaims(s, perms, role), role);
    RoleClaimsForOwnRole(role, missing);
    forall p | p in perms && GrantOf(p) !in snapshot
      ensures GrantOf(p) in GrantsOf(missing)
    {
      assert p in missing;
      var k :| 0 <= k < |missing| && missing[k] == p;
      assert GrantsOf(missing)[k] == GrantOf(p);
    }
  }

  lemma AddedClaimsOnlyMissing(s: Store, perms: seq<P.Permission>, role: Role)
    ensures forall rc :: rc in AddedClaims(s, perms, role) ==>
      exists p :: p in perms && rc == PermissionRoleClaim(role, p) && GrantOf(p) !in RoleClaimsOf(s, role)
  {
    var missing := Missing(RoleClaimsOf(s, role), perms);
    var added := AddedClaims(s, perms, role);
    forall rc | rc in added
      ensures exists p :: p in perms && rc == PermissionRoleClaim(role, p) && GrantOf(p) !in RoleClaimsOf(s, role)
    {
      var k :| 0 <= k < |added| && added[k] == rc;
      assert missing[k] in missing;
    }
  }

  lemma AddedClaimsNoneMissing(s: Store, perms: seq<P.Permission>, role: Role)
    requires forall p :: p in perms ==> GrantOf(p) in RoleClaimsOf(s, role)
    ensures AddedClaims(s, perms, role) == []
  {
    FilterDropsAll(perms, IsMissingFrom(RoleClaimsOf(s, role)));
  }

  /** AssignPermissionToRole: read the role's claims once, then add a
      permission claim for every listed permission whose name was not among
      them. Existing claims are never removed. */
  function AssignPermissionToRole(s: Store, perms: seq<P.Permission>, role: Role): (s': Store)
    ensures s'.roles == s.roles && s'.users == s.users
    ensures |s.roleClaims| <= |s'.roleClaims| && s'.roleClaims[..|s.roleClaims|] == s.roleClaims
    ensures forall p :: p in perms ==> GrantOf(p) in RoleClaimsOf(s', role)
    ensures forall rc :: rc in s'.roleClaims[|s.roleClaims|..] ==>
      exists p :: p in perms && rc == PermissionRoleClaim(role, p) && GrantOf(p) !in RoleClaimsOf(s, role)
    ensures (forall p :: p in perms ==> GrantOf(p) in RoleClaimsOf(s, role)) ==> s' == s
  {
    var added := AddedClaims(s, perms, role);
    var s' := s.(roleClaims := s.roleClaims + added);
    AddedClaimsGrantAll(s, perms, role);
    AddedClaimsOnlyMissing(s, perms, role);
    assert s'.roleClaims[|s.roleClaims|..] == added;
    assert (forall p :: p in perms ==> GrantOf(p) in RoleClaimsOf(s, role)) ==> s' == s by {
      if forall p :: p in perms ==> GrantOf(p) in RoleClaimsOf(s, role) {
        AddedClaimsNoneMissing(s, perms, role);
        assert s.roleClaims + [] == s.roleClaims;
      }
    }
    s'
  }

  /** One more permission in the list adds it to the missing ones exactly
      when its claim is not in the snapshot. */
  lemma MissingStep(snapshot: seq<Claim>, perms: seq<P.Permission>, i: nat)
    requires i < |perms|
    ensures Missing(snapshot, perms[..i + 1])
         == Missing(snapshot, perms[..i]) + (if GrantOf(perms[i]) !in snapshot then [perms[i]] else [])
  {
    assert perms[..i + 1] == perms[..i] + [perms[i]];
    FilterAppend(perms[..i], [perms[i]], IsMissingFrom(snapshot));
  }

  lemma RoleClaimsForSnoc(role: Role, perms: seq<P.Permission>, p: P.Permission)
    ensures RoleClaimsFor(role, perms + [p]) == RoleClaimsFor(role, perms) + [PermissionRoleClaim(role, p)]
  {
  }

  /** The foreach loop of AssignPermissionToRole, one SaveChanges per added
      claim, computes the same store as the function above. */
  method AssignPermissionToRoleLoop(s: Store, perms: seq<P.Permission>, role: Role) returns (s': Store)
    ensures s' == AssignPermissionToRole(s, perms, role)
  {
    var currentClaims := RoleClaimsOf(s, role);
    ghost var added: seq<RoleClaim> := [];
    s' := s;
    for i := 0 to |perms|
      invariant added == RoleClaimsFor(role, Missing(currentClaims, perms[..i]))
      invariant s' == s.(roleClaims := s.roleClaims + added)
    {
      MissingStep(currentClaims, perms, i);
      if GrantOf(perms[i]) !in currentClaims {
        RoleClaimsForSnoc(role, Missing(currentClaims, perms[..i]), perms[i]);
        added := added + [PermissionRoleClaim(role, perms[i])];
        s' := s'.(roleClaims := s'.roleClaims + [PermissionRoleClaim(role, perms[i])]);
      } else {
        assert Missing(currentClaims, perms[..i]) + [] == Missing(currentClaims, perms[..i]);
      }
    }
    assert perms[..|perms|] == perms;
    AssignPermissionToRoleAppends(s, perms, role);
  }

  lemma AssignPermissionToRoleAppends(s: Store, perms: seq<P.Permission>, role: Role)
    ensures AssignPermissionToRole(s, perms, role) == s.(roleClaims := s.roleClaims + AddedClaims(s, perms, role))
  {
  }

  /** Assigning the same permissions twice adds nothing the second time. */
  lemma AssignPermissionToRoleIdempotent(s: Store, perms: seq<P.Permission>, role: Role)
    ensures AssignPermissionToRole(AssignPermissionToRole(s, perms, role), perms, role)
         == AssignPermissionToRole(s, perms, role)
  {
  }

  /** Claims present on a role stay present when permissions are assigned. */
  lemma AssignKeepsClaims(s: Store, perms: seq<P.Permission>, role: Role, other: Role, c: Claim)
    requires c in RoleClaimsOf(s, other)
    ensures c in RoleClaimsOf(AssignPermissionToRole(s, perms, role), other)
  {
    var s' := AssignPermissionToRole(s, perms, role);
    var added := s'.roleClaims[|s.roleClaims|..];
    assert s'.roleClaims == s.roleClaims + added;
    RoleClaimsOfAppend(s, added, other);
  }

  // ---------------------------------------------------------------------
  // InitializeDefaultRolesAsync
  // ---------------------------------------------------------------------

  /** The role named `roleName`, created with Description "<name> Role" when absent. */
  function EnsureRole(s: Store, roleName: string, env: SeedEnv): (r: (Store, Role))
    ensures roleName in s.roles ==> r == (s, s.roles[roleName])
    ensures roleName !in s.roles ==> r.1 == Identity.Role.Role(env.roleIdFor(roleName), roleName, roleName + " Role")
    ensures r.0.roles == s.roles[roleName := r.1]
    ensures r.0.roleClaims == s.roleClaims && r.0.users == s.users
  {
    if roleName in s.roles then (s, s.roles[roleName])
    else
      var role := Identity.Role.Role(env.roleIdFor(roleName), roleName, roleName + " Role");
      (s.(roles := s.roles[roleName := role]), role)
  }

  /** The three permission lists the seeder hands out. The seeding
      functions take them as a value so that the proofs about seeding can
      treat them abstractly; `Catalogue` holds the real lists. */
  datatype Grants = Grants(root: seq<P.Permission>, admin: seq<P.Permission>, basic: seq<P.Permission>)

  const Catalogue: Grants := Grants(P.Root, P.Admin, P.Basic)

  /** One iteration of the loop over the default roles: ensure the role exists, then give it
      its permissions (Admin also gets Root's in the root tenant). */
  function SeedRole(s: Store, roleName: string, tenantId: string, env: SeedEnv, g: Grants): Store {
    var (s1, role) := EnsureRole(s, roleName, env);
    if roleName == Roles.Basic then AssignPermissionToRole(s1, g.basic, role)
    else if roleName == Roles.Admin then
      var s2 := AssignPermissionToRole(s1, g.admin, role);
      if tenantId == RootId then AssignPermissionToRole(s2, g.root, role) else s2
    else s1
  }

  /** Assigning permissions leaves roles and users alone and only appends
      role claims. */
  lemma AssignFrame(s: Store, perms: seq<P.Permission>, role: Role)
    ensures var s' := AssignPermissionToRole(s, perms, role);
      && s'.roles == s.roles && s'.users == s.users
      && |s.roleClaims| <= |s'.roleClaims| && s'.roleClaims[..|s.roleClaims|] == s.roleClaims
  {
  }

  lemma AppendOnlyTransitive(a: seq<RoleClaim>, b: seq<RoleClaim>, c: seq<RoleClaim>)
    requires |a| <= |b| && b[..|a|] == a
    requires |b| <= |c| && c[..|b|] == b
    ensures |a| <= |c| && c[..|a|] == a
  {
    assert c[..|a|] == c[..|b|][..|a|];
  }

  /** One seeded role: only the role itself is added to the role map, users
      stay, and role claims are only appended. */
  lemma SeedRoleFrame(s: Store, roleName: string, tenantId: string, env: SeedEnv, g: Grants)
    ensures var s' := SeedRole(s, roleName, tenantId, env, g);
      && s'.users == s.users
      && s'.roles == s.roles[roleName := EnsureRole(s, roleName, env).1]
      && |s.roleClaims| <= |s'.roleClaims| && s'.roleClaims[..|s.roleClaims|] == s.roleClaims
  {
    var (s1, role) := EnsureRole(s, roleName, env);
    if roleName == Roles.Basic {
      AssignFrame(s1, g.basic, role);
    } else if roleName == Roles.Admin {
      var s2 := AssignPermissionToRole(s1, g.admin, role);
      AssignFrame(s1, g.admin, role);
      if tenantId == RootId {
        AssignFrame(s2, g.root, role);
        AppendOnlyTransitive(s1.roleClaims, s2.roleClaims, AssignPermissionToRole(s2, g.root, role).roleClaims);
      }
    }
  }

  /** InitializeDefaultRolesAsync for the tenant `tenantId`: Admin and Basic
      exist afterwards, existing roles keep their Id and description, a
      created role is described as "<name> Role", and no claim is removed. */
  function InitializeDefaultRoles(s: Store, tenantId: string, env: SeedEnv, g: Grants): (s': Store)
    ensures s'.users == s.users
    ensures s'.roles.Keys == s.roles.Keys + {Roles.Admin, Roles.Basic}
    ensures forall n :: n in s.roles ==> s'.roles[n] == s.roles[n]
    ensures forall n :: n in Roles.DefaultRoles && n !in s.roles ==>
      s'.roles[n] == Identity.Role.Role(env.roleIdFor(n), n, n + " Role")
    ensures |s.roleClaims| <= |s'.roleClaims| && s'.roleClaims[..|s.roleClaims|] == s.roleClaims
  {
    var s1 := SeedRole(s, Roles.Admin, tenantId, env, g);
    var s2 := SeedRole(s1, Roles.Basic, tenantId, env, g);
    SeedRoleFrame(s, Roles.Admin, tenantId, env, g);
    SeedRoleFrame(s1, Roles.Basic, tenantId, env, g);
    AppendOnlyTransitive(s.roleClaims, s1.roleClaims, s2.roleClaims);
    EnsureRoleTwice(s, s1, s2, Roles.Admin, Roles.Basic, env);
    s2
  }

  /** Two role creations in a row: existing roles are kept, and a missing
      role gets the Id, name and description EnsureRole gives it. */
  lemma EnsureRoleTwice(s: Store, s1: Store, s2: Store, a: string, b: string, env: SeedEnv)
    requires s1.roles == s.roles[a := EnsureRole(s, a, env).1]
    requires s2.roles == s1.roles[b := EnsureRole(s1, b, env).1]
    ensures s2.roles.Keys == s.roles.Keys + {a, b}
    ensures forall n :: n in s.roles ==> s2.roles[n] == s.roles[n]
    ensures forall n :: n in [a, b] && n !in s.roles ==>
      s2.roles[n] == Identity.Role.Role(env.roleIdFor(n), n, n + " Role")
  {
    forall n | n in [a, b] && n !in s.roles
      ensures s2.roles[n] == Identity.Role.Role(env.roleIdFor(n), n, n + " Role")
    {
      if n == b && a != b {
        assert b !in s1.roles;
      }
    }
  }

  // ---------------------------------------------------------------------
  // InitializeAdminUserAsync
  // ---------------------------------------------------------------------

  function HasEmail(email: Option<string>): User -> bool {
    (u: User) => u.email == email
  }

  /** The admin user created for a tenant: user name and email are the
      tenant's email, and the account is active. */
  function NewAdminUser(tenant: Tenant, env: SeedEnv): (u: User)
    requires tenant.email.Some?
    ensures HasEmail(tenant.email)(u)
    ensures u.userName == tenant.email && u.normalizedUserName == Some(Upper(tenant.email.value))
    ensures u.normalizedEmail == Some(Upper(tenant.email.value))
    ensures u.firstName == tenant.firstName && u.lastName == tenant.lastName
    ensures u.phoneNumberConfirmed && u.isActive
    ensures u.passwordHash == Some(env.adminPasswordHash)
    ensures u.roles == [] && u.claims == []
  {
    var email := tenant.email.value;
    User(
      id := env.newUserId,
      userName := Some(email),
      normalizedUserName := Some(Upper(email)),
      email := Some(email),
      normalizedEmail := Some(Upper(email)),
      firstName := tenant.firstName,
      lastName := tenant.lastName,
      phoneNumber := None,
      phoneNumberConfirmed := true,
      passwordHash := Some(env.adminPasswordHash),
      isActive := true,
      refreshToken := "",
      refreshTokenExpiryTime := DefaultDate,
      roles := [],
      claims := [])
  }

  /** UserManager.AddToRoleAsync: the user with Id `userId` joins `roleName`. */
  function AddToRole(users: seq<User>, userId: string, roleName: string): (r: seq<User>)
    ensures |r| == |users|
    ensures forall i :: 0 <= i < |users| ==>
      r[i] == if users[i].id == userId then users[i].(roles := users[i].roles + [roleName]) else users[i]
  {
    seq(|users|, i requires 0 <= i < |users| =>
      if users[i].id == userId then users[i].(roles := users[i].roles + [roleName]) else users[i])
  }

  lemma {:induction false} AddToRoleKeepsFirst(users: seq<User>, u: User, roleName: string, email: Option<string>)
    requires FirstUser(users, HasEmail(email)) == Some(u)
    ensures FirstUser(AddToRole(users, u.id, roleName), HasEmail(email)) == Some(u.(roles := u.roles + [roleName]))
  {
    if users[0] != u {
      assert AddToRole(users, u.id, roleName)[1..] == AddToRole(users[1..], u.id, roleName);
      AddToRoleKeepsFirst(users[1..], u, roleName, email);
    }
  }

  lemma {:induction false} FirstUserAppended(users: seq<User>, u: User, p: User -> bool)
    requires FirstUser(users, p).None? && p(u)
    ensures FirstUser(users + [u], p) == Some(u)
  {
    if |users| == 0 {
      assert users + [u] == [u];
    } else {
      assert (users + [u])[1..] == users[1..] + [u];
      FirstUserAppended(users[1..], u, p);
    }
  }

  /** A user was found and is in the Admin role. */
  predicate InAdminRole(u: Option<User>) {
    u.Some? && Roles.Admin in u.value.roles
  }

  /** The administrator record appended when the tenant's email finds no
      user and the validators accept the new one: it joins Admin at once. */
  function CreatedAdmin(tenant: Tenant, env: SeedEnv): User
    requires tenant.email.Some?
  {
    NewAdminUser(tenant, env).(roles := [Roles.Admin])
  }

  /** InitializeAdminUserAsync: nothing happens without a tenant email.
      Otherwise the first user with that email joins the Admin role unless
      already in it; when there is none, the administrator record is
      created in the Admin role. A record the user validators refuse is
      not stored, and AddToRoleAsync then fails validation the same way, so
      the store stays as it was. Roles and role claims are untouched. */
  function InitializeAdminUser(s: Store, tenant: Tenant, env: SeedEnv): (s': Store)
    ensures IsNullOrEmpty(tenant.email) ==> s' == s
    ensures s'.roles == s.roles && s'.roleClaims == s.roleClaims
    ensures !IsNullOrEmpty(tenant.email) ==>
      var found := FirstUser(s.users, HasEmail(tenant.email));
      && (found.None? ==>
            s'.users == if env.userAccepted(NewAdminUser(tenant, env)) then s.users + [CreatedAdmin(tenant, env)] else s.users)
      && (found.Some? ==> |s'.users| == |s.users|)
      && (found.Some? ==> forall i :: 0 <= i < |s.users| && s.users[i].id != found.value.id ==> s'.users[i] == s.users[i])
      && (found.Some? ==>
            FirstUser(s'.users, HasEmail(tenant.email)) == Some(
              if Roles.Admin in found.value.roles then found.value
              else found.value.(roles := found.value.roles + [Roles.Admin])))
    ensures !IsNullOrEmpty(tenant.email) ==>
      var admitted := FirstUser(s.users, HasEmail(tenant.email)).Some? || env.userAccepted(NewAdminUser(tenant, env));
      InAdminRole(FirstUser(s'.users, HasEmail(tenant.email))) <==> admitted
  {
    if IsNullOrEmpty(tenant.email) then s
    else match FirstUser(s.users, HasEmail(tenant.email))
      case None =>
        var u := NewAdminUser(tenant, env);
        if env.userAccepted(u) then
          FirstUserAppended(s.users, CreatedAdmin(tenant, env), HasEmail(tenant.email));
          s.(users := s.users + [CreatedAdmin(tenant, env)])
        else s
      case Some(u) =>
        if Roles.Admin in u.roles then s
        else
          AddToRoleKeepsFirst(s.users, u, Roles.Admin, tenant.email);
          s.(users := AddToRole(s.users, u.id, Roles.Admin))
  }

  // ---------------------------------------------------------------------
  // InitalizeDatabaseAsync
  // ---------------------------------------------------------------------

  /** The seeding steps for one tenant: default roles, then the admin user. */
  function SeedTenant(s: Store, tenant: Tenant, env: SeedEnv, g: Grants): Store {
    InitializeAdminUser(InitializeDefaultRoles(s, tenant.id, env, g), tenant, env)
  }

  /** InitalizeDatabaseAsync for the tenant in context: seed roles and the
      admin user, but only when migrations exist and the database answers. */
  function InitializeDatabase(s: Store, tenant: Tenant, env: SeedEnv): (s': Store)
    ensures !(env.hasMigrations && env.canConnect) ==> s' == s
    ensures env.hasMigrations && env.canConnect ==> s'.roles.Keys == s.roles.Keys + {Roles.Admin, Roles.Basic}
  {
    if env.hasMigrations && env.canConnect then SeedTenant(s, tenant, env, Catalogue) else s
  }

  // ---------------------------------------------------------------------
  // Properties of seeding
  // ---------------------------------------------------------------------

  /** Every listed permission's claim is on the role. */
  predicate Granted(s: Store, perms: seq<P.Permission>, role: Role) {
    forall p :: p in perms ==> GrantOf(p) in RoleClaimsOf(s, role)
  }

  lemma AssignKeepsGranted(s: Store, perms: seq<P.Permission>, role: Role, grants: seq<P.Permission>, other: Role)
    requires Granted(s, grants, other)
    ensures Granted(AssignPermissionToRole(s, perms, role), grants, other)
  {
    forall p | p in grants
      ensures GrantOf(p) in RoleClaimsOf(AssignPermissionToRole(s, perms, role), other)
    {
      AssignKeepsClaims(s, perms, role, other, GrantOf(p));
    }
  }

  /** The state default-role seeding leaves behind: both roles exist and
      carry their permissions. It depends on roles and role claims only. */
  predicate RolesSeeded(s: Store, tenantId: string, g: Grants) {
    && Roles.Admin in s.roles && Roles.Basic in s.roles
    && Granted(s, g.admin, s.roles[Roles.Admin])
    && (tenantId == RootId ==> Granted(s, g.root, s.roles[Roles.Admin]))
    && Granted(s, g.basic, s.roles[Roles.Basic])
  }

  lemma AdminIsNotBasic()
    ensures Roles.Admin != Roles.Basic
  {
    assert Roles.Admin[0] != Roles.Basic[0];
  }

  lemma SeedAdminGrants(s: Store, tenantId: string, env: SeedEnv, g: Grants)
    ensures var s' := SeedRole(s, Roles.Admin, tenantId, env, g);
      && Roles.Admin in s'.roles
      && Granted(s', g.admin, s'.roles[Roles.Admin])
      && (tenantId == RootId ==> Granted(s', g.root, s'.roles[Roles.Admin]))
  {
    var (s1, role) := EnsureRole(s, Roles.Admin, env);
    AdminIsNotBasic();
    var s2 := AssignPermissionToRole(s1, g.admin, role);
    if tenantId == RootId {
      AssignKeepsGranted(s2, g.root, role, g.admin, role);
    }
  }

  lemma SeedBasicGrants(s: Store, tenantId: string, env: SeedEnv, g: Grants)
    requires Roles.Admin in s.roles
    ensures var s' := SeedRole(s, Roles.Basic, tenantId, env, g);
      && Roles.Basic in s'.roles
      && s'.roles[Roles.Admin] == s.roles[Roles.Admin]
      && Granted(s', g.basic, s'.roles[Roles.Basic])
      && forall perms :: Granted(s, perms, s.roles[Roles.Admin]) ==> Granted(s', perms, s'.roles[Roles.Admin])
  {
    var (s1, role) := EnsureRole(s, Roles.Basic, env);
    AdminIsNotBasic();
    var admin := s.roles[Roles.Admin];
    forall perms | Granted(s, perms, admin)
      ensures Granted(AssignPermissionToRole(s1, g.basic, role), perms, admin)
    {
      assert RoleClaimsOf(s1, admin) == RoleClaimsOf(s, admin);
      AssignKeepsGranted(s1, g.basic, role, perms, admin);
    }
  }

  /** Default-role seeding establishes RolesSeeded. */
  lemma DefaultRolesSeed(s: Store, tenantId: string, env: SeedEnv, g: Grants)
    ensures RolesSeeded(InitializeDefaultRoles(s, tenantId, env, g), tenantId, g)
  {
    var s1 := SeedRole(s, Roles.Admin, tenantId, env, g);
    SeedAdminGrants(s, tenantId, env, g);
    SeedBasicGrants(s1, tenantId, env, g);
  }

  /** On a store where the roles are already seeded, default-role seeding
      changes nothing. */
  lemma DefaultRolesWhenSeeded(s: Store, tenantId: string, env: SeedEnv, g: Grants)
    requires RolesSeeded(s, tenantId, g)
    ensures InitializeDefaultRoles(s, tenantId, env, g) == s
  {
    AdminIsNotBasic();
    var admin := s.roles[Roles.Admin];
    assert EnsureRole(s, Roles.Admin, env) == (s, admin);
    assert AssignPermissionToRole(s, g.admin, admin) == s;
    assert SeedRole(s, Roles.Admin, tenantId, env, g) == s;
    var basic := s.roles[Roles.Basic];
    assert EnsureRole(s, Roles.Basic, env) == (s, basic);
    assert SeedRole(s, Roles.Basic, tenantId, env, g) == s;
  }

  /** The state admin-user seeding leaves behind. It depends on users only. */
  predicate AdminSeeded(s: Store, tenant: Tenant, env: SeedEnv) {
    !IsNullOrEmpty(tenant.email) ==>
      || InAdminRole(FirstUser(s.users, HasEmail(tenant.email)))
      || (FirstUser(s.users, HasEmail(tenant.email)).None? && !env.userAccepted(NewAdminUser(tenant, env)))
  }

  lemma AdminUserWhenSeeded(s: Store, tenant: Tenant, env: SeedEnv)
    requires AdminSeeded(s, tenant, env)
    ensures InitializeAdminUser(s, tenant, env) == s
  {
  }

  /** Seeding a tenant twice leaves the same identity store as seeding it once. */
  lemma SeedTenantIdempotent(s: Store, tenant: Tenant, env: SeedEnv, g: Grants)
    ensures SeedTenant(SeedTenant(s, tenant, env, g), tenant, env, g) == SeedTenant(s, tenant, env, g)
  {
    var s1 := InitializeDefaultRoles(s, tenant.id, env, g);
    var s2 := InitializeAdminUser(s1, tenant, env);
    DefaultRolesSeed(s, tenant.id, env, g);
    assert RolesSeeded(s2, tenant.id, g) by {
      assert s2.roles == s1.roles && s2.roleClaims == s1.roleClaims;
      forall perms, role | Granted(s1, perms, role) ensures Granted(s2, perms, role) {
        assert RoleClaimsOf(s2, role) == RoleClaimsOf(s1, role);
      }
    }
    DefaultRolesWhenSeeded(s2, tenant.id, env, g);
    AdminUserWhenSeeded(s2, tenant, env);
  }

  /** Running the database initialisation twice is the same as running it once. */
  lemma InitializeDatabaseIdempotent(s: Store, tenant: Tenant, env: SeedEnv)
    ensures InitializeDatabase(InitializeDatabase(s, tenant, env), tenant, env) == InitializeDatabase(s, tenant, env)
  {
    if env.hasMigrations && env.canConnect {
      SeedTenantIdempotent(s, tenant, env, Catalogue);
    }
  }

  /** A permission whose name no listed permission has is not granted by the list. */
  lemma GrantNotAmong(p: P.Permission, perms: seq<P.Permission>)
    requires forall q :: q in perms ==> q.Name() != p.Name()
    ensures GrantOf(p) !in GrantsOf(perms)
  {
    forall k | 0 <= k < |perms| ensures GrantsOf(perms)[k] != GrantOf(p) {
      assert perms[k] in perms;
    }
  }

  /** When none of the permissions is on the role yet, assignment appends
      them all, in list order. */
  lemma AssignFresh(s: Store, perms: seq<P.Permission>, role: Role)
    requires forall p :: p in perms ==> GrantOf(p) !in RoleClaimsOf(s, role)
    ensures RoleClaimsOf(AssignPermissionToRole(s, perms, role), role) == RoleClaimsOf(s, role) + GrantsOf(perms)
  {
    FilterKeepsAll(perms, IsMissingFrom(RoleClaimsOf(s, role)));
    RoleClaimsOfAppend(s, AddedClaims(s, perms, role), role);
    RoleClaimsForOwnRole(role, perms);
  }

  /** Assigning permissions to one role leaves another role's claims alone. */
  lemma AssignOtherRole(s: Store, perms: seq<P.Permission>, role: Role, other: Role)
    requires other.id != role.id
    ensures RoleClaimsOf(AssignPermissionToRole(s, perms, role), other) == RoleClaimsOf(s, other)
  {
    var missing := Missing(RoleClaimsOf(s, role), perms);
    RoleClaimsOfAppend(s, AddedClaims(s, perms, role), other);
    RoleClaimsForOtherRole(role, other, missing);
    assert RoleClaimsOf(s, other) + ToClaims([]) == RoleClaimsOf(s, other);
  }

  /** Two assignments to a role that has no claims yet, of lists with no
      name in common, leave exactly both lists' claims on it. */
  lemma AssignTwiceFresh(s: Store, a: seq<P.Permission>, b: seq<P.Permission>, role: Role)
    requires RoleClaimsOf(s, role) == []
    requires forall p, q :: p in b && q in a ==> p.Name() != q.Name()
    ensures RoleClaimsOf(AssignPermissionToRole(s, a, role), role) == GrantsOf(a)
    ensures RoleClaimsOf(AssignPermissionToRole(AssignPermissionToRole(s, a, role), b, role), role)
         == GrantsOf(a) + GrantsOf(b)
  {
    AssignFresh(s, a, role);
    var s2 := AssignPermissionToRole(s, a, role);
    forall p | p in b ensures GrantOf(p) !in RoleClaimsOf(s2, role) {
      GrantNotAmong(p, a);
    }
    AssignFresh(s2, b, role);
  }

  lemma SeedFreshAdmin(s: Store, tenantId: string, env: SeedEnv, g: Grants)
    requires Roles.Admin !in s.roles
    requires forall rc :: rc in s.roleClaims ==> rc.roleId != env.roleIdFor(Roles.Admin)
    requires forall p, q :: p in g.root && q in g.admin ==> p.Name() != q.Name()
    ensures var s' := SeedRole(s, Roles.Admin, tenantId, env, g);
      RoleClaimsOf(s', s'.roles[Roles.Admin])
        == GrantsOf(g.admin) + (if tenantId == RootId then GrantsOf(g.root) else [])
  {
    AdminIsNotBasic();
    var (s1, role) := EnsureRole(s, Roles.Admin, env);
    FilterDropsAll(s1.roleClaims, HasRoleId(role.id));
    AssignTwiceFresh(s1, g.admin, g.root, role);
    assert GrantsOf(g.admin) + [] == GrantsOf(g.admin);
  }

  lemma SeedFreshBasic(s: Store, tenantId: string, env: SeedEnv, g: Grants)
    requires Roles.Basic !in s.roles
    requires Roles.Admin in s.roles && s.roles[Roles.Admin].id != env.roleIdFor(Roles.Basic)
    requires forall rc :: rc in s.roleClaims ==> rc.roleId != env.roleIdFor(Roles.Basic)
    ensures var s' := SeedRole(s, Roles.Basic, tenantId, env, g);
      && RoleClaimsOf(s', s'.roles[Roles.Basic]) == GrantsOf(g.basic)
      && s'.roles[Roles.Admin] == s.roles[Roles.Admin]
      && RoleClaimsOf(s', s'.roles[Roles.Admin]) == RoleClaimsOf(s, s.roles[Roles.Admin])
  {
    AdminIsNotBasic();
    var (s1, role) := EnsureRole(s, Roles.Basic, env);
    FilterDropsAll(s1.roleClaims, HasRoleId(role.id));
    assert RoleClaimsOf(s1, role) == [];
    AssignFresh(s1, g.basic, role);
    AssignOtherRole(s1, g.basic, role, s.roles[Roles.Admin]);
  }

  /** Seeding an empty identity store: Admin and Basic are created, Admin
      holds exactly the admin permissions (followed by the root permissions
      in the root tenant) and Basic exactly the basic permissions. */
  lemma SeedEmptyStore(tenant: Tenant, env: SeedEnv, g: Grants)
    requires env.roleIdFor(Roles.Admin) != env.roleIdFor(Roles.Basic)
    requires forall p, q :: p in g.root && q in g.admin ==> p.Name() != q.Name()
    ensures var s' := SeedTenant(EmptyStore, tenant, env, g);
      && s'.roles.Keys == {Roles.Admin, Roles.Basic}
      && RoleClaimsOf(s', s'.roles[Roles.Admin])
           == GrantsOf(g.admin) + (if tenant.id == RootId then GrantsOf(g.root) else [])
      && RoleClaimsOf(s', s'.roles[Roles.Basic]) == GrantsOf(g.basic)
  {
    var s1 := SeedRole(EmptyStore, Roles.Admin, tenant.id, env, g);
    SeedFreshAdmin(EmptyStore, tenant.id, env, g);
    SeedRoleFrame(EmptyStore, Roles.Admin, tenant.id, env, g);
    AdminIsNotBasic();
    forall rc | rc in s1.roleClaims ensures rc.roleId != env.roleIdFor(Roles.Basic) {
      AssignedClaimsBelongToRole(EmptyStore, tenant.id, env, g, rc);
    }
    SeedFreshBasic(s1, tenant.id, env, g);
    var s2 := SeedRole(s1, Roles.Basic, tenant.id, env, g);
    var s3 := InitializeAdminUser(s2, tenant, env);
    assert RoleClaimsOf(s3, s3.roles[Roles.Admin]) == RoleClaimsOf(s2, s2.roles[Roles.Admin]);
    assert RoleClaimsOf(s3, s3.roles[Roles.Basic]) == RoleClaimsOf(s2, s2.roles[Roles.Basic]);
  }

  /** Every claim the Admin step adds to an empty store carries the Admin role's Id. */
  lemma AssignedClaimsBelongToRole(s: Store, tenantId: string, env: SeedEnv, g: Grants, rc: RoleClaim)
    requires s == EmptyStore
    requires rc in SeedRole(s, Roles.Admin, tenantId, env, g).roleClaims
    ensures rc.roleId == env.roleIdFor(Roles.Admin)
  {
    AdminIsNotBasic();
    var (s1, role) := EnsureRole(s, Roles.Admin, env);
    var s2 := AssignPermissionToRole(s1, g.admin, role);
    assert s2.roleClaims == s2.roleClaims[|s1.roleClaims|..];
    if tenantId == RootId {
      var s3 := AssignPermissionToRole(s2, g.root, role);
      assert s3.roleClaims == s2.roleClaims + s3.roleClaims[|s2.roleClaims|..];
    }
  }

  /** A new tenant's Admin role holds exactly the admin permissions, plus
      the root permissions in the root tenant; Basic holds the basic ones. */
  lemma NewTenantRoleClaims(tenant: Tenant, env: SeedEnv)
    requires env.hasMigrations && env.canConnect
    requires env.roleIdFor(Roles.Admin) != env.roleIdFor(Roles.Basic)
    ensures var s' := InitializeDatabase(EmptyStore, tenant, env);
      && s'.roles.Keys == {Roles.Admin, Roles.Basic}
      && RoleClaimsOf(s', s'.roles[Roles.Admin])
           == GrantsOf(P.Admin) + (if tenant.id == RootId then GrantsOf(P.Root) else [])
      && RoleClaimsOf(s', s'.roles[Roles.Basic]) == GrantsOf(P.Basic)
  {
    P.RootNamesNotAdminNames();
    SeedEmptyStore(tenant, env, Catalogue);
  }

  /** After seeding an empty store the Admin role holds the root
      permissions exactly when the tenant is the root tenant. */
  lemma SeedEmptyStoreRootGrant(tenant: Tenant, env: SeedEnv, g: Grants)
    requires env.roleIdFor(Roles.Admin) != env.roleIdFor(Roles.Basic)
    requires forall p, q :: p in g.root && q in g.admin ==> p.Name() != q.Name()
    requires |g.root| > 0
    ensures var s' := SeedTenant(EmptyStore, tenant, env, g);
      Granted(s', g.root, s'.roles[Roles.Admin]) <==> tenant.id == RootId
  {
    SeedEmptyStore(tenant, env, g);
    if tenant.id != RootId {
      GrantNotAmong(g.root[0], g.admin);
    }
  }

  /** In a new tenant the Admin role holds the root permissions exactly when
      the tenant is the root tenant. */
  lemma AdminHoldsRootPermissionsOnlyInRoot(tenant: Tenant, env: SeedEnv)
    requires env.hasMigrations && env.canConnect
    requires env.roleIdFor(Roles.Admin) != env.roleIdFor(Roles.Basic)
    ensures var s' := InitializeDatabase(EmptyStore, tenant, env);
      Granted(s', P.Root, s'.roles[Roles.Admin]) <==> tenant.id == RootId
  {
    P.RootIsTenantAdministration();
    P.RootNamesNotAdminNames();
    SeedEmptyStoreRootGrant(tenant, env, Catalogue);
  }
}
