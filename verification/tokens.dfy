/** Login and refresh-token issuance (Infrastructure/Identity/Tokens/TokenService.cs):
    the checks that guard them, the claims a JWT carries, and refresh-token
    rotation. */
module Tokens {
  import opened Common
  import opened Claims
  import opened Errors
  import opened Identity
  import opened TenantInfo

  /** JwtSettings (the signing secret is left to the token representation). */
  datatype JwtSettings = JwtSettings(tokenExpiryTimeInMinutes: int, refreshTokenExpiryTimeInDays: int)

  /** A JWT as the refresh endpoint receives it: either a token whose
      signature verifies with the application's secret, with its claims,
      expiry instant and header algorithm, or one that fails signature or
      format validation. */
  datatype Token = Signed(claims: seq<Claim>, expires: int, alg: string) | Unverifiable

  /** SecurityAlgorithms.HmacSha256 */
  const HmacSha256: string := "HS256"

  /** TokenResponse */
  datatype TokenResponse = TokenResponse(jwt: Token, refreshToken: string, refreshTokenExpiryDate: int)

  datatype TokenRequest = TokenRequest(username: string, password: string)

  datatype RefreshTokenRequest = RefreshTokenRequest(currentJwt: Token, currentRefreshToken: string)

  const TenantContextNotFound: string := "Tenant context not found."
  const TenantNotActive: string := "Tenant is not active. Contact Administrator."
  const AuthenticationNotSuccessful: string := "Authentication not successful."
  const IncorrectCredentials: string := "Incorrect Username or password."
  const UserNotActive: string := "User is not active. Contact Administrator."
  const SubscriptionExpired: string := "Tenant Subscription has expired. Contact Administrator."
  const InvalidTokenProvided: string := "Invalid token provided. Failed to generate new token."
  const EmailClaimNotFound: string := "Invalid token: email claim not found."
  const AuthenticationFailed: string := "Authentication failed."
  const InvalidToken: string := "Invalid token."

  /** Stand-ins for the messages of the framework exceptions. */
  const RoleNotFoundMessage: string := "Value cannot be null. (Parameter 'role')"
  const SignatureInvalidMessage: string := "Signature validation failed."
  const TokenExpiredMessage: string := "Lifetime validation failed. The token is expired."

  // ---------------------------------------------------------------------
  // GetUserClaims
  // ---------------------------------------------------------------------

  /** The six identity claims every JWT starts with; absent values become "". */
  function HeaderClaims(user: User, tenant: Option<Tenant>): (r: seq<Claim>)
    ensures |r| == 6
    ensures r[0] == Claim(NameIdentifier, user.id) && r[1] == Claim(Email, user.email.OrElse(""))
    ensures forall i :: 0 <= i < 6 ==> r[i].claimType != Permission
  {
    [ Claim(NameIdentifier, user.id),
      Claim(Email, user.email.OrElse("")),
      Claim(Name, user.firstName.OrElse("")),
      Claim(Surname, user.lastName.OrElse("")),
      Claim(ClaimType.Tenant, if tenant.Some? then tenant.value.id else ""),
      Claim(MobilePhone, user.phoneNumber.OrElse("")) ]
  }

  /** The loop over the user's roles: a Role claim per role name, and the
      role's stored claims. A role name with no role behind it makes
      RoleManager.GetClaimsAsync(null) throw. */
  function RoleDerived(s: Store, roleNames: seq<string>): (r: Result<(seq<Claim>, seq<Claim>), Exception>)
    ensures r.Ok? <==> forall i :: 0 <= i < |roleNames| ==> roleNames[i] in s.roles
    ensures r.Err? ==> r.error == Fault(ArgumentNull, RoleNotFoundMessage, None)
    ensures r.Ok? ==> forall c :: c in r.value.0 <==> c.claimType == ClaimType.Role && c.value in roleNames
    ensures r.Ok? ==> forall c :: c in r.value.1 <==>
      exists i :: 0 <= i < |roleNames| && c in RoleClaimsOf(s, s.roles[roleNames[i]])
  {
    if |roleNames| == 0 then Ok(([], []))
    else if roleNames[0] !in s.roles then Err(Fault(ArgumentNull, RoleNotFoundMessage, None))
    else
      match RoleDerived(s, roleNames[1..])
      case Err(e) => Err(e)
      case Ok((roleClaims, permissionClaims)) =>
        assert forall c :: c in permissionClaims <==>
          exists i :: 1 <= i < |roleNames| && c in RoleClaimsOf(s, s.roles[roleNames[i]]) by {
          forall c ensures c in permissionClaims <==>
            exists i :: 1 <= i < |roleNames| && c in RoleClaimsOf(s, s.roles[roleNames[i]]) {
            if c in permissionClaims {
              var k :| 0 <= k < |roleNames[1..]| && c in RoleClaimsOf(s, s.roles[roleNames[1..][k]]);
              assert c in RoleClaimsOf(s, s.roles[roleNames[k + 1]]);
            }
            if exists i :: 1 <= i < |roleNames| && c in RoleClaimsOf(s, s.roles[roleNames[i]]) {
              var k :| 1 <= k < |roleNames| && c in RoleClaimsOf(s, s.roles[roleNames[k]]);
              assert roleNames[1..][k - 1] == roleNames[k];
            }
          }
        }
        Ok(([Claim(ClaimType.Role, roleNames[0])] + roleClaims,
            RoleClaimsOf(s, s.roles[roleNames[0]]) + permissionClaims))
  }

  /** GetUserClaims: the identity claims, then a Role claim per role, then
      the user's own claims, then every claim of every role the user is in.
      The three Union calls compare claims by reference, so nothing is
      deduplicated. */
  function GetUserClaims(s: Store, user: User, tenant: Option<Tenant>): (r: Result<seq<Claim>, Exception>)
    ensures r.Ok? <==> forall i :: 0 <= i < |user.roles| ==> user.roles[i] in s.roles
    ensures r.Ok? ==> 6 <= |r.value| && r.value[..6] == HeaderClaims(user, tenant)
    ensures r.Ok? ==> forall c :: c in r.value <==>
      || c in HeaderClaims(user, tenant)
      || (c.claimType == ClaimType.Role && c.value in user.roles)
      || c in user.claims
      || exists i :: 0 <= i < |user.roles| && c in RoleClaimsOf(s, s.roles[user.roles[i]])
  {
    match RoleDerived(s, user.roles)
    case Err(e) => Err(e)
    case Ok((roleClaims, permissionClaims)) =>
      Ok(HeaderClaims(user, tenant) + roleClaims + user.claims + permissionClaims)
  }

  // ---------------------------------------------------------------------
  // GenerateTokenAndUpdateUserAsync
  // ---------------------------------------------------------------------

  /** Build the JWT from the user's claims first, then rotate the refresh
      token to `freshToken` (RandomNumberGenerator's output), valid for the
      configured number of days, and store the user. */
  function GenerateTokenAndUpdateUser(s: Store, user: User, tenant: Option<Tenant>, now: int,
                                      settings: JwtSettings, freshToken: string): (r: Result<(Store, TokenResponse), Exception>)
    ensures r.Ok? <==> GetUserClaims(s, user, tenant).Ok?
    ensures r.Err? ==> r == Err(GetUserClaims(s, user, tenant).error)
    ensures r.Ok? ==> var (s', resp) := r.value;
      && resp.jwt == Signed(GetUserClaims(s, user, tenant).value, AddMinutes(now, settings.tokenExpiryTimeInMinutes), HmacSha256)
      && resp.refreshToken == freshToken
      && resp.refreshTokenExpiryDate == AddDays(now, settings.refreshTokenExpiryTimeInDays)
      && s'.roles == s.roles && s'.roleClaims == s.roleClaims
      && s'.users == ReplaceUser(s.users, user.(refreshToken := freshToken, refreshTokenExpiryTime := resp.refreshTokenExpiryDate))
  {
    match GetUserClaims(s, user, tenant)
    case Err(e) => Err(e)
    case Ok(claims) =>
      var jwt := Signed(claims, AddMinutes(now, settings.tokenExpiryTimeInMinutes), HmacSha256);
      var expiry := AddDays(now, settings.refreshTokenExpiryTimeInDays);
      var user' := user.(refreshToken := freshToken, refreshTokenExpiryTime := expiry);
      Ok((s.(users := ReplaceUser(s.users, user')), TokenResponse(jwt, freshToken, expiry)))
  }

  // ---------------------------------------------------------------------
  // loginAsync
  // ---------------------------------------------------------------------

  /** The subscription check of login: the root tenant never expires, any
      other tenant is refused once ValidUpTo lies before `now`. */
  predicate SubscriptionCurrent(t: Tenant, now: int) {
    t.id == RootId || now <= t.validUpTo
  }

  /** loginAsync for the tenant in context (None when the request resolved
      no tenant), on that tenant's identity data. `checkPassword` stands for
      UserManager.CheckPasswordAsync. Each check throws a 401 with its own
      message, in the source's order. */
  function Login(tenant: Option<Tenant>, s: Store, req: TokenRequest, checkPassword: (User, string) -> bool,
                 now: int, settings: JwtSettings, freshToken: string): (r: Result<(Store, TokenResponse), Exception>)
    ensures tenant.None? ==> r == Err(Unauthorised(TenantContextNotFound))
    ensures tenant.Some? && !tenant.value.isActive ==> r == Err(Unauthorised(TenantNotActive))
    ensures tenant.Some? && tenant.value.isActive ==>
      var found := FindByName(s.users, req.username);
      && (found.None? ==> r == Err(Unauthorised(AuthenticationNotSuccessful)))
      && (found.Some? && !checkPassword(found.value, req.password) ==>
            r == Err(Unauthorised(IncorrectCredentials)))
      && (found.Some? && checkPassword(found.value, req.password) && !found.value.isActive ==>
            r == Err(Unauthorised(UserNotActive)))
      && (found.Some? && checkPassword(found.value, req.password) && found.value.isActive
            && !SubscriptionCurrent(tenant.value, now) ==>
            r == Err(Unauthorised(SubscriptionExpired)))
      && (found.Some? && checkPassword(found.value, req.password) && found.value.isActive
            && SubscriptionCurrent(tenant.value, now) ==>
            r == GenerateTokenAndUpdateUser(s, found.value, tenant, now, settings, freshToken))
    ensures r.Ok? <==>
      && tenant.Some? && tenant.value.isActive
      && FindByName(s.users, req.username).Some?
      && checkPassword(FindByName(s.users, req.username).value, req.password)
      && FindByName(s.users, req.username).value.isActive
      && SubscriptionCurrent(tenant.value, now)
      && GetUserClaims(s, FindByName(s.users, req.username).value, tenant).Ok?
    ensures r.Err? ==> r.error.Unauthorized? || r.error.Fault?
  {
    if tenant.None? then Err(Unauthorised(TenantContextNotFound))
    else if !tenant.value.isActive then Err(Unauthorised(TenantNotActive))
    else match FindByName(s.users, req.username)
      case None => Err(Unauthorised(AuthenticationNotSuccessful))
      case Some(user) =>
        if !checkPassword(user, req.password) then Err(Unauthorised(IncorrectCredentials))
        else if !user.isActive then Err(Unauthorised(UserNotActive))
        else if tenant.value.id != RootId && tenant.value.validUpTo < now then Err(Unauthorised(SubscriptionExpired))
        else GenerateTokenAndUpdateUser(s, user, tenant, now, settings, freshToken)
  }

  // ---------------------------------------------------------------------
  // RefreshTokenAsync
  // ---------------------------------------------------------------------

  /** JwtSecurityTokenHandler.ValidateToken with the refresh endpoint's
      parameters (signing key validated, lifetime validated with no clock
      skew), followed by the HS256 header check: the token's claims, or the
      exception. */
  function ValidateExpiringToken(jwt: Token, now: int): (r: Result<seq<Claim>, Exception>)
    ensures r.Ok? <==> jwt.Signed? && now <= jwt.expires && EqualsIgnoreCase(jwt.alg, HmacSha256)
    ensures r.Ok? ==> r.value == jwt.claims
  {
    match jwt
    case Unverifiable => Err(Fault(SecurityToken, SignatureInvalidMessage, None))
    case Signed(claims, expires, alg) =>
      if expires < now then Err(Fault(SecurityTokenExpired, TokenExpiredMessage, None))
      else if !EqualsIgnoreCase(alg, HmacSha256) then Err(Unauthorised(InvalidTokenProvided))
      else Ok(claims)
  }

  /** ClaimsPrincipal.GetEmail: the value of the first Email claim, if any. */
  function EmailOf(claims: seq<Claim>): (r: Option<string>)
    ensures r.Some? ==> Claim(Email, r.value) in claims
    ensures r.None? ==> forall i :: 0 <= i < |claims| ==> claims[i].claimType != Email
  {
    if |claims| == 0 then None
    else if claims[0].claimType == Email then Some(claims[0].value)
    else EmailOf(claims[1..])
  }

  /** The refresh token presented is the stored one and has not expired. */
  predicate RefreshTokenCurrent(user: User, presented: string, now: int) {
    user.refreshToken == presented && now <= user.refreshTokenExpiryTime
  }

  /** FindByEmailAsync throwing on a shared email. */
  function EmailSharedError(): Exception {
    Fault(InvalidOperation, MoreThanOneMessage, None)
  }

  /** RefreshTokenAsync: validate the expiring JWT, find its user by email,
      and issue a new pair only when the presented refresh token is the
      stored one and has not expired. Neither the tenant's nor the user's
      active flag is checked here. */
  function Refresh(tenant: Option<Tenant>, s: Store, req: RefreshTokenRequest, now: int,
                   settings: JwtSettings, freshToken: string): (r: Result<(Store, TokenResponse), Exception>)
    ensures ValidateExpiringToken(req.currentJwt, now).Err? ==>
      r == Err(ValidateExpiringToken(req.currentJwt, now).error)
    ensures ValidateExpiringToken(req.currentJwt, now).Ok? ==>
      var email := EmailOf(req.currentJwt.claims);
      && (IsNullOrEmpty(email) ==> r == Err(Unauthorised(EmailClaimNotFound)))
      && (!IsNullOrEmpty(email) && EmailShared(s.users, email.value) ==> r == Err(EmailSharedError()))
      && (!IsNullOrEmpty(email) && !EmailShared(s.users, email.value) ==>
            var found := FindByEmail(s.users, email.value);
            && (found.None? ==> r == Err(Unauthorised(AuthenticationFailed)))
            && (found.Some? && !RefreshTokenCurrent(found.value, req.currentRefreshToken, now) ==>
                  r == Err(Unauthorised(InvalidToken)))
            && (found.Some? && RefreshTokenCurrent(found.value, req.currentRefreshToken, now) ==>
                  r == GenerateTokenAndUpdateUser(s, found.value, tenant, now, settings, freshToken)))
    ensures r.Err? ==> r.error.Unauthorized? || r.error.Fault?
  {
    match ValidateExpiringToken(req.currentJwt, now)
    case Err(e) => Err(e)
    case Ok(claims) =>
      var email := EmailOf(claims);
      if IsNullOrEmpty(email) then Err(Unauthorised(EmailClaimNotFound))
      else if EmailShared(s.users, email.value) then Err(EmailSharedError())
      else match FindByEmail(s.users, email.value)
        case None => Err(Unauthorised(AuthenticationFailed))
        case Some(user) =>
          if user.refreshToken != req.currentRefreshToken || user.refreshTokenExpiryTime < now then
            Err(Unauthorised(InvalidToken))
          else GenerateTokenAndUpdateUser(s, user, tenant, now, settings, freshToken)
  }

  // ---------------------------------------------------------------------
  // Properties
  // ---------------------------------------------------------------------

  /** The root tenant's ValidUpTo never matters to login. */
  lemma RootTenantNeverExpires(tenant: Tenant, validUpTo: int, s: Store, req: TokenRequest,
                               checkPassword: (User, string) -> bool, now: int, settings: JwtSettings, freshToken: string)
    requires tenant.id == RootId
    ensures Login(Some(tenant.(validUpTo := validUpTo)), s, req, checkPassword, now, settings, freshToken)
         == Login(Some(tenant), s, req, checkPassword, now, settings, freshToken)
  {
  }

  /** A non-root tenant whose subscription ended before `now` is refused
      with the expiry message once every earlier check has passed; one that
      ends exactly at `now` is still accepted. */
  lemma ExpiredSubscriptionRefused(tenant: Tenant, s: Store, req: TokenRequest,
                                   checkPassword: (User, string) -> bool, now: int, settings: JwtSettings, freshToken: string)
    requires tenant.id != RootId && tenant.isActive
    requires FindByName(s.users, req.username).Some?
    requires checkPassword(FindByName(s.users, req.username).value, req.password)
    requires FindByName(s.users, req.username).value.isActive
    ensures tenant.validUpTo < now ==>
      Login(Some(tenant), s, req, checkPassword, now, settings, freshToken) == Err(Unauthorised(SubscriptionExpired))
    ensures tenant.validUpTo == now ==>
      Login(Some(tenant), s, req, checkPassword, now, settings, freshToken)
        == GenerateTokenAndUpdateUser(s, FindByName(s.users, req.username).value, Some(tenant), now, settings, freshToken)
  {
  }

  /** The first Email claim of a token built by GetUserClaims is the user's email. */
  lemma EmailOfIssuedClaims(s: Store, user: User, tenant: Option<Tenant>)
    requires GetUserClaims(s, user, tenant).Ok?
    ensures EmailOf(GetUserClaims(s, user, tenant).value) == Some(user.email.OrElse(""))
  {
    var claims := GetUserClaims(s, user, tenant).value;
    assert claims[0] == HeaderClaims(user, tenant)[0];
    assert claims[1..][0] == HeaderClaims(user, tenant)[1];
  }

  /** After tokens are issued, the user found by email is the rotated user. */
  lemma IssuedUserFoundByEmail(s: Store, user: User, tenant: Option<Tenant>, now: int, settings: JwtSettings, freshToken: string)
    requires user.email.Some? && FindByEmail(s.users, user.email.value) == Some(user)
    requires GenerateTokenAndUpdateUser(s, user, tenant, now, settings, freshToken).Ok?
    ensures var (s', resp) := GenerateTokenAndUpdateUser(s, user, tenant, now, settings, freshToken).value;
      FindByEmail(s'.users, user.email.value)
        == Some(user.(refreshToken := freshToken, refreshTokenExpiryTime := resp.refreshTokenExpiryDate))
  {
    var (s', resp) := GenerateTokenAndUpdateUser(s, user, tenant, now, settings, freshToken).value;
    var user' := user.(refreshToken := freshToken, refreshTokenExpiryTime := resp.refreshTokenExpiryDate);
    ReplaceKeepsFirst(s.users, user, user', NormalizedEmailIs(user.email.value));
  }

  /** The only user with an email, rotated in place under a primary key,
      is still the only one and is what FindByEmailAsync returns. */
  lemma RotatedUserStillOnlyMatch(users: seq<User>, user: User, user': User, email: string)
    requires UniqueUserIds(users)
    requires FindByEmail(users, email) == Some(user) && !EmailShared(users, email)
    requires user'.id == user.id && user'.normalizedEmail == user.normalizedEmail
    ensures !EmailShared(ReplaceUser(users, user'), email)
    ensures FindByEmail(ReplaceUser(users, user'), email) == Some(user')
  {
    ReplaceKeepsOnlyMatch(users, user, user', NormalizedEmailIs(email));
    assert user' in Filter(ReplaceUser(users, user'), NormalizedEmailIs(email));
  }

  /** A pair issued by login can be exchanged at the refresh endpoint while
      both the JWT and the refresh token are still valid, provided the
      user's email finds that user and no other. */
  lemma LoginThenRefresh(tenant: Tenant, s: Store, req: TokenRequest, checkPassword: (User, string) -> bool,
                         now: int, settings: JwtSettings, freshToken: string, later: int, nextToken: string)
    requires UniqueUserIds(s.users)
    requires Login(Some(tenant), s, req, checkPassword, now, settings, freshToken).Ok?
    requires var user := FindByName(s.users, req.username).value;
      && !IsNullOrEmpty(user.email) && FindByEmail(s.users, user.email.value) == Some(user)
      && !EmailShared(s.users, user.email.value)
    requires now <= later
    requires later <= AddMinutes(now, settings.tokenExpiryTimeInMinutes)
    requires later <= AddDays(now, settings.refreshTokenExpiryTimeInDays)
    ensures var (s', resp) := Login(Some(tenant), s, req, checkPassword, now, settings, freshToken).value;
      Refresh(Some(tenant), s', RefreshTokenRequest(resp.jwt, resp.refreshToken), later, settings, nextToken).Ok?
  {
    var user := FindByName(s.users, req.username).value;
    var (s', resp) := Login(Some(tenant), s, req, checkPassword, now, settings, freshToken).value;
    var user' := user.(refreshToken := freshToken, refreshTokenExpiryTime := resp.refreshTokenExpiryDate);
    EmailOfIssuedClaims(s, user, Some(tenant));
    RotatedUserStillOnlyMatch(s.users, user, user', user.email.value);
    assert EqualsIgnoreCase(HmacSha256, HmacSha256);
  }

  /** Refreshing rotates the refresh token: presenting the old one again is
      refused with "Invalid token." while the JWT itself is still valid. */
  lemma RefreshRevokesOldToken(tenant: Option<Tenant>, s: Store, req: RefreshTokenRequest, now: int,
                               settings: JwtSettings, freshToken: string, later: int, nextToken: string)
    requires UniqueUserIds(s.users)
    requires Refresh(tenant, s, req, now, settings, freshToken).Ok?
    requires freshToken != req.currentRefreshToken
    requires ValidateExpiringToken(req.currentJwt, later).Ok?
    ensures Refresh(tenant, Refresh(tenant, s, req, now, settings, freshToken).value.0, req, later, settings, nextToken)
         == Err(Unauthorised(InvalidToken))
  {
    var email := EmailOf(req.currentJwt.claims).value;
    var user := FindByEmail(s.users, email).value;
    var (s', resp) := Refresh(tenant, s, req, now, settings, freshToken).value;
    var user' := user.(refreshToken := freshToken, refreshTokenExpiryTime := resp.refreshTokenExpiryDate);
    RotatedUserStillOnlyMatch(s.users, user, user', email);
  }

  /** Refresh succeeds exactly when the JWT validates and carries an email
      that finds a single user whose refresh token is current and whose
      roles all exist. */
  lemma RefreshSucceedsIff(tenant: Option<Tenant>, s: Store, req: RefreshTokenRequest, now: int,
                           settings: JwtSettings, freshToken: string)
    ensures Refresh(tenant, s, req, now, settings, freshToken).Ok? <==>
      && ValidateExpiringToken(req.currentJwt, now).Ok?
      && !IsNullOrEmpty(EmailOf(req.currentJwt.claims))
      && var email := EmailOf(req.currentJwt.claims).value;
      && !EmailShared(s.users, email)
      && FindByEmail(s.users, email).Some?
      && RefreshTokenCurrent(FindByEmail(s.users, email).value, req.currentRefreshToken, now)
      && GetUserClaims(s, FindByEmail(s.users, email).value, tenant).Ok?
  {
  }

  /** Unlike login, refresh consults neither active flag: a user whose
      token pair is current gets a new pair whether or not the user or the
      tenant is active, and flipping the tenant's flag changes nothing. */
  lemma RefreshIgnoresActiveFlags(tenant: Tenant, s: Store, req: RefreshTokenRequest, now: int,
                                  settings: JwtSettings, freshToken: string, user: User)
    requires ValidateExpiringToken(req.currentJwt, now).Ok?
    requires !IsNullOrEmpty(user.email) && EmailOf(req.currentJwt.claims) == user.email
    requires FindByEmail(s.users, user.email.value) == Some(user) && !EmailShared(s.users, user.email.value)
    requires RefreshTokenCurrent(user, req.currentRefreshToken, now)
    requires GetUserClaims(s, user, Some(tenant)).Ok?
    ensures Refresh(Some(tenant), s, req, now, settings, freshToken).Ok?
    ensures Refresh(Some(tenant.(isActive := !tenant.isActive)), s, req, now, settings, freshToken)
         == Refresh(Some(tenant), s, req, now, settings, freshToken)
  {
    assert HeaderClaims(user, Some(tenant.(isActive := !tenant.isActive))) == HeaderClaims(user, Some(tenant));
  }

  /** The permission check on a token's claims succeeds exactly for the
      permissions some role of the user carries, when the user has no
      permission claims of their own. */
  lemma AuthorisedThroughRoles(s: Store, user: User, tenant: Option<Tenant>, req: Requirement)
    requires GetUserClaims(s, user, tenant).Ok?
    requires forall c :: c in user.claims ==> c.claimType != Permission
    ensures HandleRequirement(GetUserClaims(s, user, tenant).value, req) == Succeeded <==>
      exists i :: 0 <= i < |user.roles| && Claim(Permission, req.permission) in RoleClaimsOf(s, s.roles[user.roles[i]])
  {
    var claims := GetUserClaims(s, user, tenant).value;
    var c := Claim(Permission, req.permission);
    assert (exists i :: 0 <= i < |claims| && claims[i] == c) <==> c in claims;
    assert c !in HeaderClaims(user, tenant);
    assert c !in user.claims;
    assert c in claims <==> exists i :: 0 <= i < |user.roles| && c in RoleClaimsOf(s, s.roles[user.roles[i]]);
  }
}
