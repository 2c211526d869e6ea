/** The per-tenant identity store the seeder and the token service work on:
    roles, role claims and users, with the lookups the framework's role and
    user managers perform (Infrastructure/Identity/Models and the
    RoleManager/UserManager calls of the core). */
module Identity {
  import opened Common
  import opened Claims

  /** ApplicationRole */
  datatype Role = Role(id: string, name: string, description: string)

  /** ApplicationRoleClaim */
  datatype RoleClaim = RoleClaim(
    roleId: string,
    roleName: string,
    claimType: ClaimType,
    claimValue: string,
    description: string,
    group: string)

  /** ApplicationUser. `roles` are the names of the roles the user is in;
      `claims` are the user's own claims. */
  datatype User = User(
    id: string,
    userName: Option<string>,
    normalizedUserName: Option<string>,
    email: Option<string>,
    normalizedEmail: Option<string>,
    firstName: Option<string>,
    lastName: Option<string>,
    phoneNumber: Option<string>,
    phoneNumberConfirmed: bool,
    passwordHash: Option<string>,
    isActive: bool,
    refreshToken: string,
    refreshTokenExpiryTime: int,
    roles: seq<string>,
    claims: seq<Claim>)

  /** One tenant's identity data. Roles are keyed by name, as the framework
      keeps role names unique within a tenant. */
  datatype Store = Store(roles: map<string, Role>, roleClaims: seq<RoleClaim>, users: seq<User>)

  const EmptyStore: Store := Store(map[], [], [])

  /** Every role is stored under its own name. */
  predicate RolesKeyedByName(s: Store) {
    forall n :: n in s.roles ==> s.roles[n].name == n
  }

  function ToClaim(rc: RoleClaim): Claim {
    Claim(rc.claimType, rc.claimValue)
  }

  function ToClaims(rcs: seq<RoleClaim>): (r: seq<Claim>)
    ensures |r| == |rcs|
    ensures forall i :: 0 <= i < |rcs| ==> r[i] == ToClaim(rcs[i])
  {
    seq(|rcs|, i requires 0 <= i < |rcs| => ToClaim(rcs[i]))
  }

  lemma ToClaimsAppend(a: seq<RoleClaim>, b: seq<RoleClaim>)
    ensures ToClaims(a + b) == ToClaims(a) + ToClaims(b)
  {
  }

  function HasRoleId(roleId: string): RoleClaim -> bool {
    (rc: RoleClaim) => rc.roleId == roleId
  }

  /** RoleManager.GetClaimsAsync(role): the claims stored against the role's
      Id, in store order. */
  function RoleClaimsOf(s: Store, role: Role): (r: seq<Claim>)
    ensures forall c :: c in r <==> exists rc :: rc in s.roleClaims && rc.roleId == role.id && ToClaim(rc) == c
  {
    var mine := Filter(s.roleClaims, HasRoleId(role.id));
    assert forall c :: c in ToClaims(mine) <==> exists rc :: rc in mine && ToClaim(rc) == c by {
      forall c ensures c in ToClaims(mine) <==> exists rc :: rc in mine && ToClaim(rc) == c {
        if c in ToClaims(mine) {
          var k :| 0 <= k < |mine| && ToClaims(mine)[k] == c;
          assert mine[k] in mine;
        }
        if exists rc :: rc in mine && ToClaim(rc) == c {
          var rc :| rc in mine && ToClaim(rc) == c;
          var k :| 0 <= k < |mine| && mine[k] == rc;
          assert ToClaims(mine)[k] == c;
        }
      }
    }
    ToClaims(mine)
  }

  /** Appending role claims extends a role's claim list by the appended
      claims that belong to it. */
  lemma RoleClaimsOfAppend(s: Store, added: seq<RoleClaim>, role: Role)
    ensures RoleClaimsOf(s.(roleClaims := s.roleClaims + added), role)
         == RoleClaimsOf(s, role) + ToClaims(Filter(added, HasRoleId(role.id)))
  {
    FilterAppend(s.roleClaims, added, HasRoleId(role.id));
    ToClaimsAppend(Filter(s.roleClaims, HasRoleId(role.id)), Filter(added, HasRoleId(role.id)));
  }

  /** The first user satisfying `p`, as FirstOrDefault would return it. */
  function FirstUser(users: seq<User>, p: User -> bool): (r: Option<User>)
    ensures r.Some? ==> r.value in users && p(r.value)
    ensures r.None? ==> forall i :: 0 <= i < |users| ==> !p(users[i])
  {
    if |users| == 0 then None
    else if p(users[0]) then Some(users[0])
    else FirstUser(users[1..], p)
  }

  function NormalizedUserNameIs(userName: string): User -> bool {
    (u: User) => u.normalizedUserName == Some(Upper(userName))
  }

  function NormalizedEmailIs(email: string): User -> bool {
    (u: User) => u.normalizedEmail == Some(Upper(email))
  }

  /** Users are stored under their primary key. */
  predicate UniqueUserIds(users: seq<User>) {
    forall i, j :: 0 <= i < j < |users| ==> users[i].id != users[j].id
  }

  /** The first user satisfying `p` heads the users satisfying it. */
  lemma {:induction false} FirstUserHeadsFilter(users: seq<User>, p: User -> bool)
    ensures FirstUser(users, p).Some? <==> |Filter(users, p)| > 0
    ensures FirstUser(users, p).Some? ==> FirstUser(users, p).value == Filter(users, p)[0]
  {
    if |users| > 0 && !p(users[0]) {
      FirstUserHeadsFilter(users[1..], p);
    }
  }

  /** UserManager.FindByNameAsync: the user whose normalized user name is
      the upper-cased argument. The store's SingleOrDefault query is the
      first match, as the Identity schema's unique index on the normalized
      user name leaves at most one. */
  function FindByName(users: seq<User>, userName: string): (r: Option<User>)
    ensures r.Some? ==> r.value in users && r.value.normalizedUserName == Some(Upper(userName))
    ensures r.None? <==> forall i :: 0 <= i < |users| ==> users[i].normalizedUserName != Some(Upper(userName))
    ensures r.Some? ==> r.value == Filter(users, NormalizedUserNameIs(userName))[0]
  {
    FirstUserHeadsFilter(users, NormalizedUserNameIs(userName));
    FirstUser(users, NormalizedUserNameIs(userName))
  }

  /** The message of the InvalidOperationException SingleOrDefault throws. */
  const MoreThanOneMessage: string := "Sequence contains more than one element."

  /** The email index is not unique and the identity options do not ask for
      unique emails, so several users may share a normalized email; the
      store's SingleOrDefault query then throws. */
  predicate EmailShared(users: seq<User>, email: string) {
    |Filter(users, NormalizedEmailIs(email))| > 1
  }

  /** UserManager.FindByEmailAsync when the email is not shared: the only
      user whose normalized email is the upper-cased argument. */
  function FindByEmail(users: seq<User>, email: string): (r: Option<User>)
    ensures r.Some? ==> r.value in users && r.value.normalizedEmail == Some(Upper(email))
    ensures r.None? <==> forall i :: 0 <= i < |users| ==> users[i].normalizedEmail != Some(Upper(email))
    ensures r.Some? && !EmailShared(users, email) ==> Filter(users, NormalizedEmailIs(email)) == [r.value]
  {
    FirstUserHeadsFilter(users, NormalizedEmailIs(email));
    FirstUser(users, NormalizedEmailIs(email))
  }

  /** UserManager.UpdateAsync / AddToRoleAsync: store `u` in place of the
      user with the same Id. */
  function ReplaceUser(users: seq<User>, u: User): (r: seq<User>)
    ensures |r| == |users|
    ensures forall i :: 0 <= i < |users| ==> r[i] == (if users[i].id == u.id then u else users[i])
  {
    seq(|users|, i requires 0 <= i < |users| => if users[i].id == u.id then u else users[i])
  }

  /** Replacing a stored user makes it the one found by any predicate it
      still satisfies, when it was found before. */
  lemma {:induction false} ReplaceKeepsFirst(users: seq<User>, u: User, u': User, p: User -> bool)
    requires FirstUser(users, p) == Some(u)
    requires u'.id == u.id && p(u')
    ensures FirstUser(ReplaceUser(users, u'), p) == Some(u')
  {
    if !p(users[0]) {
      if users[0].id == u.id {
        assert ReplaceUser(users, u')[0] == u';
      } else {
        assert ReplaceUser(users, u')[1..] == ReplaceUser(users[1..], u');
        ReplaceKeepsFirst(users[1..], u, u', p);
      }
    }
  }

  /** Replacing the only user satisfying `p` by a version with the same Id
      that still satisfies it leaves that version the only one. */
  lemma {:induction false} ReplaceKeepsOnlyMatch(users: seq<User>, u: User, u': User, p: User -> bool)
    requires UniqueUserIds(users)
    requires Filter(users, p) == [u]
    requires u'.id == u.id && p(u')
    ensures Filter(ReplaceUser(users, u'), p) == [u']
  {
    var rest := users[1..];
    assert ReplaceUser(users, u')[1..] == ReplaceUser(rest, u');
    assert u in Filter(users, p);
    if p(users[0]) {
      assert Filter(rest, p) == [];
      forall i | 0 <= i < |rest| ensures rest[i].id != u.id {
        assert users[i + 1] == rest[i];
      }
      assert ReplaceUser(rest, u') == rest;
    } else {
      var k :| 0 <= k < |rest| && rest[k] == u;
      assert users[k + 1] == u;
      ReplaceKeepsOnlyMatch(rest, u, u', p);
    }
  }
}
