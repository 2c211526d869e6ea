/** End-to-end consequences that follow from several parts of the core
    together: a request passing through the validation behaviour, the
    handler and the error middleware; a rejected login as the client sees
    it; and what a Basic user of a freshly seeded tenant may do. */
module Scenarios {
  import opened Common
  import opened Errors
  import opened Responses
  import opened Claims
  import opened Identity
  import opened TenantInfo
  import P = Permissions
  import Roles
  import AppSeeder
  import Tokens
  import ValidationPipeline
  import ErrorHandling
  import Schools
  import SchoolHandlers
  import SchoolValidation

  /** Validator failures as the behaviour collects them: one validator, no nulls. */
  function AsValidatorErrors(failures: seq<Failure>): (r: seq<seq<Option<Failure>>>)
    ensures |r| == 1 && |r[0]| == |failures|
    ensures forall i :: 0 <= i < |failures| ==> r[0][i] == Some(failures[i])
  {
    [seq(|failures|, i requires 0 <= i < |failures| => Some(failures[i]))]
  }

  lemma NoFailuresCollected(failures: seq<Failure>)
    ensures |ValidationPipeline.Failures(AsValidatorErrors(failures))| == 0 <==> failures == []
  {
    if failures != [] {
      assert Some(failures[0]) in AsValidatorErrors(failures)[0];
    }
  }

  /** PUT api/schools/update: the command validator runs first; UpdateSchoolCommand
      declares IResponseWrapper, so failures throw and the middleware answers.
      Returns the store and either the handler's envelope or the error reply. */
  function SendUpdateSchool(schools: seq<Schools.School>, command: Option<SchoolHandlers.UpdateSchoolRequest>,
                            isDevelopment: bool, stackTrace: Option<string>)
    : (r: (seq<Schools.School>, Result<Response<SchoolHandlers.Payload>, ErrorHandling.HttpReply>))
    ensures r.1.Err? ==> r.0 == schools && r.1.error.statusCode == StatusInternalServerError
    ensures r.1.Err? && !isDevelopment ==> r.1.error.body.messages == [ErrorHandling.GenericMessage]
    ensures r.1.Err? <==> command.None? || !SchoolValidation.UpdateValid(command.value, schools)
                          || !Schools.NameFits(command.value.name)
    ensures r.1.Ok? ==> r.1.value.isSuccessful && r == (SchoolHandlers.UpdateSchool(schools, command).value.0, Ok(r.1.value))
  {
    var failures := SchoolValidation.ValidateUpdateCommand(command, schools);
    var errors := AsValidatorErrors(failures);
    NoFailuresCollected(failures);
    if failures != [] then
      var outcome := ValidationPipeline.Handle(errors, ValidationPipeline.OtherType, Fail<SchoolHandlers.Payload>());
      (schools, Err(ErrorHandling.Invoke(Some(outcome.error), isDevelopment, stackTrace).value))
    else
      match SchoolHandlers.UpdateSchool(schools, command)
      case Err(e) => (schools, Err(ErrorHandling.Invoke(Some(e), isDevelopment, stackTrace).value))
      case Ok((schools', response)) =>
        SchoolValidation.ValidatedUpdateFindsSchool(command.value, schools);
        (schools', Ok(response))
  }

  /** An update without a school Id reaches the client as a server error
      with the generic message, not as a failure envelope listing the
      validation messages. */
  lemma InvalidUpdateIsServerError(schools: seq<Schools.School>, req: SchoolHandlers.UpdateSchoolRequest)
    requires req.id == 0
    ensures var r := SendUpdateSchool(schools, Some(req), false, None);
      && r.1.Err? && r.1.error.statusCode == StatusInternalServerError
      && r.1.error.body.messages == [ErrorHandling.GenericMessage]
      && r.0 == schools
  {
  }

  /** Every login rejection the service raises itself reaches the client as
      401 with the rejection message. */
  lemma LoginRejectionIsUnauthorized(tenant: Option<Tenant>, s: Store, req: Tokens.TokenRequest,
                                     checkPassword: (User, string) -> bool, now: int,
                                     settings: Tokens.JwtSettings, freshToken: string, isDevelopment: bool)
    requires Tokens.Login(tenant, s, req, checkPassword, now, settings, freshToken).Err?
    requires Tokens.Login(tenant, s, req, checkPassword, now, settings, freshToken).error.Unauthorized?
    ensures var e := Tokens.Login(tenant, s, req, checkPassword, now, settings, freshToken).error;
      var reply := ErrorHandling.Invoke(Some(e), isDevelopment, None).value;
      reply.statusCode == StatusUnauthorized && reply.body.messages == e.errorMessages && |e.errorMessages| == 1
  {
  }

  /** A login into a tenant whose context is missing is answered 401. */
  lemma MissingTenantLoginIs401(s: Store, req: Tokens.TokenRequest, checkPassword: (User, string) -> bool,
                                now: int, settings: Tokens.JwtSettings, freshToken: string)
    ensures var e := Tokens.Login(None, s, req, checkPassword, now, settings, freshToken).error;
      ErrorHandling.Invoke(Some(e), false, None).value.statusCode == StatusUnauthorized
  {
  }

  /** Membership of a permission claim among the grants of a list. */
  lemma GrantedNames(perms: seq<P.Permission>, name: string)
    ensures Claim(Permission, name) in AppSeeder.GrantsOf(perms) <==> name in P.Names(perms)
  {
    if name in P.Names(perms) {
      var k :| 0 <= k < |perms| && P.Names(perms)[k] == name;
      assert AppSeeder.GrantsOf(perms)[k] == Claim(Permission, name);
    }
    if Claim(Permission, name) in AppSeeder.GrantsOf(perms) {
      var k :| 0 <= k < |perms| && AppSeeder.GrantsOf(perms)[k] == Claim(Permission, name);
      assert P.Names(perms)[k] == name;
    }
  }

  /** A user holding one role, with no permission claims of its own, passes
      a permission check exactly for the names that role was granted. */
  lemma SingleRoleAuthorisation(s: Store, tenant: Option<Tenant>, user: User, role: string,
                                perms: seq<P.Permission>, req: Requirement)
    requires role in s.roles
    requires RoleClaimsOf(s, s.roles[role]) == AppSeeder.GrantsOf(perms)
    requires user.roles == [role]
    requires forall c :: c in user.claims ==> c.claimType != Permission
    ensures Tokens.GetUserClaims(s, user, tenant).Ok?
    ensures HandleRequirement(Tokens.GetUserClaims(s, user, tenant).value, req) == Succeeded
      <==> req.permission in P.Names(perms)
  {
    Tokens.AuthorisedThroughRoles(s, user, tenant, req);
    GrantedNames(perms, req.permission);
  }

  /** A user whose only role is Basic, in a tenant seeded from an empty
      store, and with no permission claims of its own, passes a permission
      check exactly for the names of the Basic permissions. */
  lemma BasicUserAuthorisedForBasicPermissions(tenant: Tenant, env: AppSeeder.SeedEnv, user: User, req: Requirement)
    requires env.hasMigrations && env.canConnect
    requires env.roleIdFor(Roles.Admin) != env.roleIdFor(Roles.Basic)
    requires user.roles == [Roles.Basic]
    requires forall c :: c in user.claims ==> c.claimType != Permission
    ensures var s := AppSeeder.InitializeDatabase(EmptyStore, tenant, env);
      && Tokens.GetUserClaims(s, user, Some(tenant)).Ok?
      && (HandleRequirement(Tokens.GetUserClaims(s, user, Some(tenant)).value, req) == Succeeded
          <==> req.permission in P.Names(P.Basic))
  {
    var s := AppSeeder.InitializeDatabase(EmptyStore, tenant, env);
    AppSeeder.NewTenantRoleClaims(tenant, env);
    assert Roles.Basic in s.roles;
    SingleRoleAuthorisation(s, Some(tenant), user, Roles.Basic, P.Basic, req);
  }
}
