# School Management API — a Dafny model of its multi-tenant core

The School Management API is an ASP.NET Core service. It keeps one catalogue
of tenants (schools or school groups). Each tenant has its own identity store
of users, roles and role claims. Every tenant database is seeded with two
default roles:

- "Admin" holds every non-root permission, and in the root tenant the three
  tenant-administration permissions as well.
- "Basic" holds the permissions marked basic.

On top of this sit:

- the permission catalogue and the claim-based authorisation handler;
- login and refresh-token issuance, with subscription expiry per tenant;
- tenant creation, activation and subscription updates;
- the MediatR validation pipeline and the `ResponseWrapper` envelope;
- the global error-handling middleware;
- the school feature: its service, its command and query handlers, and its
  FluentValidation validators.

The model is written with immutable datatypes and pure functions:

- `Platform` is the tenant store together with one identity `Store` per tenant.
- A school store is a sequence of `School` records.
- Every asynchronous service call becomes a function from the old state to
  the new state and an outcome `Result<…, Exception>`.
- Oracles become parameters: the clock, GUIDs, database reachability, password
  checks, freshly generated refresh tokens and role identifiers.

Modules follow the source:

| module | file | models |
|---|---|---|
| `Common` | common.dfy | `Option`/`Result`, the .NET string predicates, the minute clock, LINQ `Where`/`Distinct`/`SelectMany` |
| `Permissions` | permissions.dfy | `SchoolAction`, `SchoolFeature`, `SchoolPermission`, the 23-entry catalogue and its Root/Admin/Basic views |
| `Roles` | roles.dfy | `RoleConstants` |
| `Claims` | claims.dfy | claims, `PermissionRequirment`, `PermissionAuthorizationHandler` |
| `Errors` | errors.dfy | the exception kinds the middleware distinguishes |
| `Responses` | responses.dfy | `ResponseWrapper` and `ResponseWrapper<T>` |
| `ValidationPipeline` | pipeline.dfy | `ValidationPipelineBehavior` |
| `ErrorHandling` | middleware.dfy | `ErrorHandlingMiddleware` |
| `Identity` | identity.dfy | users, roles and role claims of one tenant's identity store |
| `TenantInfo` | tenantinfo.dfy | `ABCSchoolTenantInfo` and the root tenant constants |
| `AppSeeder` | seeder.dfy | `ApplicationDbSeeder` |
| `Tenancy` | tenants.dfy | `TenantService` |
| `TenantSeeding` | tenantseeder.dfy | `TenantDbSeeder` |
| `Tokens` | tokens.dfy | `TokenService` |
| `Schools` | schools.dfy | `SchoolService` |
| `SchoolHandlers` | schoolhandlers.dfy | the update, delete, by-name and list handlers |
| `SchoolValidation` | schoolvalidation.dfy | the three school validators |
| `Scenarios` | scenarios.dfy | end-to-end compositions: pipeline, handler, middleware and authorisation |

## Model

| member | source | states |
|---|---|---|
| Permissions.FeatureName | Infrastructure/Constants/PremissionConstants.cs:15-24 | no feature name contains the '.' separator, which is what makes permission names parseable |
| Permissions.NameForRoundTrip | Infrastructure/Constants/PremissionConstants.cs:36-37 | "Permission.{feature}.{action}" can be parsed back into its feature and action when the feature has no dot |
| Permissions.NameForInjective | Infrastructure/Constants/PremissionConstants.cs:34-37 | two permission names are equal only if action and feature are both equal |
| Permissions.Names | Infrastructure/Constants/PremissionConstants.cs:34 | the claim values of a permission list, one per entry, in list order |
| Permissions.NamesAppend | Infrastructure/Constants/PremissionConstants.cs:34 | the names of a concatenation are the concatenation of the names |
| Permissions.RootAndBasicDisjoint | Infrastructure/Constants/PremissionConstants.cs:43-197 | no catalogue entry is flagged both IsRoot and IsBasic |
| Permissions.RootEntriesLeadTheCatalogue | Infrastructure/Constants/PremissionConstants.cs:43-197 | the catalogue has 23 entries; exactly the first three are root entries |
| Permissions.RootIsTenantAdministration | Infrastructure/Constants/PremissionConstants.cs:46-65 | Root is exactly create, read and delete on Tenants, in that order |
| Permissions.RootIsCataloguePrefix | Infrastructure/Constants/PremissionConstants.cs:200 | the Root view is the first three catalogue entries |
| Permissions.LeadingRootEntries | Infrastructure/Constants/PremissionConstants.cs:200 | filtering a list whose root entries all come first yields that prefix |
| Permissions.RootAdminPartition | Infrastructure/Constants/PremissionConstants.cs:200-201 | Root and Admin split the catalogue: together they hold every entry once, and they share none |
| Permissions.RootAdminSplit | Infrastructure/Constants/PremissionConstants.cs:200-201 | the IsRoot and !IsRoot filters partition any permission list, counted with multiplicity |
| Permissions.BasicWithinAdmin | Infrastructure/Constants/PremissionConstants.cs:201-202 | every basic permission is also an admin permission, so Admin users can do what Basic users can |
| Permissions.BasicWithinAdminOf | Infrastructure/Constants/PremissionConstants.cs:201-202 | when no entry is both root and basic, filtering basic entries commutes with first dropping root entries |
| Permissions.CatalogueKeysDistinct | Infrastructure/Constants/PremissionConstants.cs:43-197 | no (feature, action) pair appears twice in the catalogue |
| Permissions.NameDeterminesKey | Infrastructure/Constants/PremissionConstants.cs:34-37 | permissions with the same claim value have the same feature and action |
| Permissions.CatalogueNamesDistinct | Infrastructure/Constants/PremissionConstants.cs:43-197 | the claim values of the catalogue are pairwise distinct |
| Permissions.NameInCatalogueHasEntry | Infrastructure/Constants/PremissionConstants.cs:43-197 | a claim value in the catalogue comes from a catalogue entry with that feature and action |
| Permissions.TenantUpdatePermissionsNotInCatalogue | WebApi/Controllers/TenantsController.cs:28-52 | "Permission.Tenants.Update" and "Permission.Tenants.UpgradeSubscription", which the tenant endpoints require, are granted by no catalogue entry, so no seeded role can reach those endpoints |
| Permissions.RootNamesNotAdminNames | Infrastructure/Constants/PremissionConstants.cs:200-201 | no root claim value is also an admin claim value |
| Permissions.SplitNamesDisjoint | Infrastructure/Constants/PremissionConstants.cs:200-201 | in a list without repeated (feature, action) pairs, root and non-root entries have different names |
| Permissions.DistinctKeysDistinctNames | Infrastructure/Constants/PremissionConstants.cs:34-37 | different (feature, action) pairs give different claim values |
| Roles.IsDefaultRole | Infrastructure/Constants/RoleConstants.cs:13 | true exactly for "Admin" and "Basic" |
| Roles.DefaultRolesShape | Infrastructure/Constants/RoleConstants.cs:5-11 | the default roles are "Admin" then "Basic", and they are distinct |
| Claims.HandleRequirement | Infrastructure/Identity/Auth/PermissionAuthorizationHandler.cs:9-20 | the requirement succeeds iff some claim is a permission claim whose value is the required permission; otherwise it stays pending |
| Claims.HandleRequirementMonotone | Infrastructure/Identity/Auth/PermissionAuthorizationHandler.cs:11-16 | more claims never withdraw an authorisation |
| Claims.HandleRequirementOrderIndependent | Infrastructure/Identity/Auth/PermissionAuthorizationHandler.cs:11-16 | the decision depends only on the set of claims, not on their order or repetition |
| Claims.OnlyPermissionClaimsAuthorise | Infrastructure/Identity/Auth/PermissionAuthorizationHandler.cs:11-13 | role, email or tenant claims alone never authorise |
| Claims.PermissionValues | Infrastructure/Identity/Auth/PermissionAuthorizationHandler.cs:11-13 | the set of values carried by permission claims |
| Claims.AuthorisedExactlyForCarriedPermissions | Infrastructure/Identity/Auth/PermissionAuthorizationHandler.cs:9-20 | a principal is authorised for exactly the permission values its claims carry |
| Responses.Success | Application/Wrappers/ResponseWrapper.cs:9-16 | a successful envelope without data, holding the message when given and no message otherwise |
| Responses.SuccessAll | Application/Wrappers/ResponseWrapper.cs:18-25 | a successful envelope carrying the given messages unchanged |
| Responses.Fail | Application/Wrappers/ResponseWrapper.cs:93-101 | a failed envelope with no messages and no data |
| Responses.FailWith | Application/Wrappers/ResponseWrapper.cs:103-111 | a failed envelope with exactly the one message and no data |
| Responses.FailAll | Application/Wrappers/ResponseWrapper.cs:113-121 | a failed envelope carrying the given messages unchanged |
| Responses.SuccessData | Application/Wrappers/ResponseWrapper.cs:72-80 | a successful envelope holding the data, with the optional message |
| Responses.SuccessDataAll | Application/Wrappers/ResponseWrapper.cs:82-90 | a successful envelope holding the data and the given messages |
| Responses.EnvelopeRoundTrip | Application/Wrappers/ResponseWrapper.cs:9-110 | the single message put into an envelope is the one read back; success and failure envelopes are never equal |
| Responses.ListOverloadsAgree | Application/Wrappers/ResponseWrapper.cs:18-121 | a one-element message list builds the same envelope as the single-message overload, and an empty failure list is plain Fail |
| ValidationPipeline.Present | Application/Piplines/ValidationPipelineBehavior.cs:34 | dropping null failures keeps exactly the non-null ones |
| ValidationPipeline.Failures | Application/Piplines/ValidationPipelineBehavior.cs:32-35 | the collected failures are exactly the non-null failures of some validator |
| ValidationPipeline.ErrorMessages | Application/Piplines/ValidationPipelineBehavior.cs:39 | one message per failure, in order |
| ValidationPipeline.ErrorList | Application/Piplines/ValidationPipelineBehavior.cs:39 | the error list holds each failing validator's message once, and nothing else |
| ValidationPipeline.HandleAsWritten | Application/Piplines/ValidationPipelineBehavior.cs:22-68 | as written: the handler runs iff there are no failures; a failed envelope is built only for the non-generic wrapper; every other response type, the generic wrapper included, throws a validation exception |
| ValidationPipeline.Handle | Application/Piplines/ValidationPipelineBehavior.cs:22-68 | the handler runs iff there are no failures, and its response passes through untouched; for either wrapper type the answer is a failed envelope whose messages are the distinct error messages; any other response type throws with all failures |
| ValidationPipeline.FailuresNeverReachHandler | Application/Piplines/ValidationPipelineBehavior.cs:37-66 | one non-null failure from any validator keeps the request from its handler |
| ValidationPipeline.NullFailuresIgnored | Application/Piplines/ValidationPipelineBehavior.cs:22-34 | when validators report only null failures, or there are no validators, the request reaches its handler |
| ValidationPipeline.RepeatedMessageListedOnce | Application/Piplines/ValidationPipelineBehavior.cs:39 | a message reported by two validators appears once in the answer |
| ValidationPipeline.GenericWrapperThrowsAsWritten | Application/Piplines/ValidationPipelineBehavior.cs:43-57 | a single failure on a `ResponseWrapper<T>` request throws as written, and is answered as intended |
| ValidationPipeline.AsWrittenAgreesElsewhere | Application/Piplines/ValidationPipelineBehavior.cs:43-65 | apart from failures on the generic wrapper, the code as written and the intended behaviour agree |
| ErrorHandling.DevelopmentMessages | WebApi/ErrorHandlingMiddleware.cs:64-72 | the list is the exception's message, then the inner exception's message, then the stack trace, in that order, each included exactly when it is non-empty |
| ErrorHandling.Invoke | WebApi/ErrorHandlingMiddleware.cs:23-78 | nothing is written when nothing is thrown; otherwise a failed JSON envelope. A mapped exception keeps its status code and messages. Anything else answers 500, with the generic text in production and the details in development |
| ErrorHandling.ProductionHidesDetails | WebApi/ErrorHandlingMiddleware.cs:61-77 | in production two unmapped exceptions give identical replies, whatever their messages or stack traces |
| ErrorHandling.ValidationFailureIsServerError | WebApi/ErrorHandlingMiddleware.cs:61-72 | a validation exception that escapes the pipeline answers 500, and in development its summary is shown |
| ErrorHandling.ValidationSummaryNonEmpty | WebApi/ErrorHandlingMiddleware.cs:68-71 | a validation exception's message is never empty, so the development filter keeps it |
| Identity.RoleClaimsOf | Infrastructure/Constants/ApplicationDbSeeder.cs:90 | a role's claims are exactly those of role-claim rows carrying that role's id |
| Identity.FirstUser | Infrastructure/Constants/ApplicationDbSeeder.cs:116-117 | FirstOrDefault: a found user is in the store and matches; no match means no user matches |
| Identity.ReplaceUser | Infrastructure/Identity/Tokens/TokenService.cs:141 | updating a user replaces every entry with its id and leaves the others alone |
| Identity.ReplaceKeepsFirst | Infrastructure/Identity/Tokens/TokenService.cs:141 | after a user is updated, a lookup that found that user finds the updated record |
| Identity.FirstUserHeadsFilter | Infrastructure/Identity/Tokens/TokenService.cs:52-53 | some user matches iff the list of matching users is non-empty, and the first match is the head of that list |
| Identity.FindByName | Infrastructure/Identity/Tokens/TokenService.cs:52-53 | a found user is stored under the upper-cased user name and is the first such user; nothing is found iff no user has that normalized name |
| Identity.FindByEmail | Infrastructure/Identity/Tokens/TokenService.cs:93-94 | a found user is stored under the upper-cased email; nothing is found iff no user has that normalized email; when the email is not shared, the found user is the only user with it |
| Identity.ReplaceKeepsOnlyMatch | Infrastructure/Identity/Tokens/TokenService.cs:141 | with unique user ids, updating the only user a lookup matches, to a record it still matches, leaves the updated record the only match |
| AppSeeder.GrantsOf | Infrastructure/Constants/ApplicationDbSeeder.cs:95-105 | one permission claim per permission, whose value is the permission's name |
| AppSeeder.AssignPermissionToRole | Infrastructure/Constants/ApplicationDbSeeder.cs:87-110 | roles and users are untouched and existing role claims are kept as a prefix. Afterwards the role holds every given permission, each added row grants a permission the role lacked before, and nothing changes if it already held them all |
| AppSeeder.AssignPermissionToRoleLoop | Infrastructure/Constants/ApplicationDbSeeder.cs:87-110 | the loop over the permissions, checking each against the claims read before the loop, computes the same store as AssignPermissionToRole |
| AppSeeder.AssignPermissionToRoleIdempotent | Infrastructure/Constants/ApplicationDbSeeder.cs:93 | assigning the same permissions twice adds nothing the second time |
| AppSeeder.AssignKeepsClaims | Infrastructure/Constants/ApplicationDbSeeder.cs:87-110 | assigning permissions never removes a claim from any role |
| AppSeeder.AssignFresh | Infrastructure/Constants/ApplicationDbSeeder.cs:91-109 | when the role holds none of the permissions, exactly their grants are appended, in order |
| AppSeeder.AssignOtherRole | Infrastructure/Constants/ApplicationDbSeeder.cs:95-105 | assigning to one role leaves every other role's claims as they were |
| AppSeeder.EnsureRole | Infrastructure/Constants/ApplicationDbSeeder.cs:57-69 | an existing role is reused unchanged; a missing one is created as "{name} Role" under a fresh id. Claims and users are untouched |
| AppSeeder.InitializeDefaultRoles | Infrastructure/Constants/ApplicationDbSeeder.cs:54-86 | afterwards both default roles exist; existing roles and all users are untouched; role claims only grow |
| AppSeeder.AddToRole | Infrastructure/Constants/ApplicationDbSeeder.cs:138-141 | the role is appended to the user with that id only |
| AppSeeder.NewAdminUser | Infrastructure/Constants/ApplicationDbSeeder.cs:120-133 | the new administrator carries the tenant's email as email and user name (both normalized by upper-casing) and the tenant's first and last names; the phone number is confirmed, the account is active, the password hash is the default password's, and there are no roles or claims yet |
| AppSeeder.InitializeAdminUser | Infrastructure/Constants/ApplicationDbSeeder.cs:113-144 | nothing happens without a tenant email. If a user has that email, that user joins Admin unless already in it, and users with other ids are unchanged. Otherwise the new administrator record is appended in the Admin role when the user validators accept it, and nothing changes when they refuse it. So the user with the email ends up an administrator iff one existed or the new record is accepted. Roles and role claims are untouched |
| AppSeeder.InitializeDatabase | Infrastructure/Constants/ApplicationDbSeeder.cs:27-52 | nothing happens unless migrations exist and the database is reachable; otherwise both default roles exist afterwards |
| AppSeeder.SeedAdminGrants | Infrastructure/Constants/ApplicationDbSeeder.cs:75-82 | after seeding, Admin holds every admin permission, and in the root tenant every root permission too |
| AppSeeder.SeedBasicGrants | Infrastructure/Constants/ApplicationDbSeeder.cs:71-74 | after seeding, Basic holds every basic permission, and Admin keeps both its role record and its grants |
| AppSeeder.DefaultRolesSeed | Infrastructure/Constants/ApplicationDbSeeder.cs:54-86 | after InitializeDefaultRoles, both roles exist with all their grants |
| AppSeeder.DefaultRolesWhenSeeded | Infrastructure/Constants/ApplicationDbSeeder.cs:59-83 | on a store whose roles already hold their grants, role seeding changes nothing |
| AppSeeder.AdminUserWhenSeeded | Infrastructure/Constants/ApplicationDbSeeder.cs:115-141 | admin seeding changes nothing when the user with the email is already an administrator, or when no user has the email and the validators refuse the new record |
| AppSeeder.SeedTenantIdempotent | Infrastructure/Constants/ApplicationDbSeeder.cs:36-44 | seeding roles and the admin user a second time changes nothing |
| AppSeeder.InitializeDatabaseIdempotent | Infrastructure/Constants/ApplicationDbSeeder.cs:27-52 | running the tenant database initialiser twice gives the same store as once |
| AppSeeder.SeedFreshAdmin | Infrastructure/Constants/ApplicationDbSeeder.cs:75-82 | a newly created Admin role holds exactly the admin grants, followed by the root grants in the root tenant |
| AppSeeder.SeedFreshBasic | Infrastructure/Constants/ApplicationDbSeeder.cs:71-74 | a newly created Basic role holds exactly the basic grants, and Admin's claims do not change |
| AppSeeder.SeedEmptyStore | Infrastructure/Constants/ApplicationDbSeeder.cs:36-44 | seeding an empty tenant database gives exactly two roles with exactly their grants |
| AppSeeder.AssignedClaimsBelongToRole | Infrastructure/Constants/ApplicationDbSeeder.cs:95-105 | every role-claim row written while seeding Admin carries Admin's role id |
| AppSeeder.NewTenantRoleClaims | Infrastructure/Constants/ApplicationDbSeeder.cs:27-86 | with the real catalogue, a new tenant's Admin holds exactly the admin permissions (plus root in the root tenant), and Basic exactly the basic ones |
| AppSeeder.SeedEmptyStoreRootGrant | Infrastructure/Constants/ApplicationDbSeeder.cs:79-82 | Admin holds the root grants iff the tenant is the root tenant |
| AppSeeder.AdminHoldsRootPermissionsOnlyInRoot | Infrastructure/Constants/ApplicationDbSeeder.cs:79-82 | with the real catalogue, a tenant's Admin can manage tenants iff the tenant is the root tenant |
| TenantSeeding.RootTenant | Infrastructure/Tenacy/TenantDbSeeder.cs:36-57 | the root tenant is active, uses the default connection, and is valid for two years from now |
| TenantSeeding.InitializeTenantDb | Infrastructure/Tenacy/TenantDbSeeder.cs:34-65 | the root tenant is added when missing, or gets the default connection when its own is null or empty; it is otherwise left alone, as are all other tenants |
| TenantSeeding.InitializeTenantDbIdempotent | Infrastructure/Tenacy/TenantDbSeeder.cs:34-65 | a second run, at any later time, changes nothing |
| TenantSeeding.EnsureConnectionString | Infrastructure/Tenacy/TenantDbSeeder.cs:69-75 | only the connection string may change, and only from blank to the default |
| TenantSeeding.EnsureConnectionStringIdempotent | Infrastructure/Tenacy/TenantDbSeeder.cs:69-75 | filling in the connection string twice is the same as once |
| TenantSeeding.SeedAllTenants | Infrastructure/Tenacy/TenantDbSeeder.cs:22-32 | every tenant gets its connection string filled in and its identity store seeded; no tenant is added or removed |
| TenantSeeding.SeedTenantsInOrder | Infrastructure/Tenacy/TenantDbSeeder.cs:27-31 | seeding the tenants one by one, in any enumeration order, gives the same platform as seeding them all at once |
| TenantSeeding.Startup | Infrastructure/Tenacy/TenantDbSeeder.cs:22-32 | after startup the root tenant and its identity store exist, and every tenant has a usable connection string or the default one |
| TenantSeeding.SeedAllTenantsIdempotent | Infrastructure/Tenacy/TenantDbSeeder.cs:22-32 | seeding every tenant twice gives the same platform as once |
| TenantSeeding.TenantDbSettled | Infrastructure/Tenacy/TenantDbSeeder.cs:34-65 | after startup, the tenant-database step has nothing left to do |
| TenantSeeding.StartupIdempotent | Infrastructure/Tenacy/TenantDbSeeder.cs:22-86 | restarting the application, at any later time, changes nothing |
| Tenancy.ResolveConnectionString | Infrastructure/Tenacy/TenantService.cs:55-61 | a connection string that is neither blank nor the "string" placeholder is kept; a blank one or the placeholder is replaced by the configured default |
| Tenancy.NewTenant | Infrastructure/Tenacy/TenantService.cs:63-77 | the tenant is keyed by a non-blank identifier and by the fresh GUID otherwise. Its connection string is the resolved one. Identifier, name, email, first and last names, active flag and expiry date are copied from the request |
| Tenancy.ResolvedConnectionUsable | Infrastructure/Tenacy/TenantService.cs:55-61 | the chosen connection string is the requested one or the default, and it is blank or the placeholder only if the default is |
| Tenancy.CreatedTenantConnectionUsable | Infrastructure/Tenacy/TenantService.cs:55-79 | a tenant created under a fresh id is stored with a connection string that is blank or the placeholder only if the default is, and with the requested identifier, name and active flag |
| Tenancy.CreateTenant | Infrastructure/Tenacy/TenantService.cs:38-98 | a taken identifier is a 409 conflict. Otherwise the tenant is added, every other tenant is kept, the new tenant's database is seeded, and its identifier is returned |
| Tenancy.Activate | Infrastructure/Tenacy/TenantService.cs:30-36 | an unknown id dereferences null and throws. Otherwise only the tenant's active flag changes, to active, and its identifier is returned |
| Tenancy.Deactivate | Infrastructure/Tenacy/TenantService.cs:103-110 | an unknown id dereferences null and throws. Otherwise only the tenant's active flag changes, to inactive, and its identifier is returned |
| Tenancy.UpdateSubscription | Infrastructure/Tenacy/TenantService.cs:144-150 | an unknown id dereferences null and throws. Otherwise only the tenant's expiry date changes, to the new date |
| Tenancy.ActivateDeactivateRoundTrip | Infrastructure/Tenacy/TenantService.cs:30-110 | deactivating a tenant that was just activated restores the platform exactly |
| Tenancy.ActivateIdempotent | Infrastructure/Tenacy/TenantService.cs:30-36 | activating twice is the same as activating once |
| Tenancy.UpdateSubscriptionLastWins | Infrastructure/Tenacy/TenantService.cs:144-150 | of two subscription updates, only the last one matters |
| Tenancy.CreateTwiceConflicts | Infrastructure/Tenacy/TenantService.cs:43-52 | creating a tenant with an identifier that was just created is a conflict |
| Tenancy.CreatedTenantIsSeeded | Infrastructure/Tenacy/TenantService.cs:79-95 | a newly created tenant has the requested status and expiry, and both default roles in its identity store |
| Tokens.HeaderClaims | Infrastructure/Identity/Tokens/TokenService.cs:195-202 | six identity claims, starting with the user id and the email, none of them a permission claim |
| Tokens.RoleDerived | Infrastructure/Identity/Tokens/TokenService.cs:187-205 | fails iff some role of the user does not exist. Otherwise it yields exactly one role claim per role name, and exactly the claims of the user's roles |
| Tokens.GetUserClaims | Infrastructure/Identity/Tokens/TokenService.cs:180-207 | fails iff a role is missing. Otherwise the token claims begin with the six identity claims and hold exactly those, the user's role names, the user's own claims, and the claims of the user's roles |
| Tokens.GenerateTokenAndUpdateUser | Infrastructure/Identity/Tokens/TokenService.cs:132-149 | the token is signed with HS256 over the user's claims and expires after the configured minutes. The refresh token is rotated and stored on the user with its expiry. Nothing else changes |
| Tokens.Login | Infrastructure/Identity/Tokens/TokenService.cs:38-79 | the checks run in order, each failing with its own 401 message: no tenant context, tenant not active, no user with the name, wrong password, user not active, subscription expired (never for root). When all pass, the result is exactly the token issuance for the user found. A login succeeds iff every check passes and the user's roles exist |
| Tokens.ValidateExpiringToken | Infrastructure/Identity/Tokens/TokenService.cs:105-126 | a token is accepted iff it is signed, unexpired and signed with HMAC-SHA256 (compared ignoring case); the claims accepted are the token's claims |
| Tokens.EmailOf | Infrastructure/Identity/Tokens/TokenService.cs:86-91 | the email claim of a token, if it has one |
| Tokens.Refresh | Infrastructure/Identity/Tokens/TokenService.cs:83-103 | a token that fails validation passes its error through. Then, in order: no email claim is a 401 "email claim not found"; an email several users share throws; an email no user has is a 401 "Authentication failed."; a refresh token that differs or has expired is a 401 "Invalid token.". Otherwise the result is exactly the token issuance for the user found |
| Tokens.RotatedUserStillOnlyMatch | Infrastructure/Identity/Tokens/TokenService.cs:93-141 | with unique user ids, rotating the refresh token of the only user with an email keeps that user the only match, and the email finds the rotated record |
| Tokens.RefreshSucceedsIff | Infrastructure/Identity/Tokens/TokenService.cs:83-103 | a refresh succeeds iff the token validates, carries an email that exactly one user has, that user holds the presented unexpired refresh token, and the user's roles exist |
| Tokens.RefreshIgnoresActiveFlags | Infrastructure/Identity/Tokens/TokenService.cs:83-103 | unlike login, a refresh succeeds for a current token pair whether or not the user or the tenant is active, and flipping the tenant's active flag never changes the outcome |
| Tokens.RootTenantNeverExpires | Infrastructure/Identity/Tokens/TokenService.cs:67-73 | the root tenant's expiry date never affects a login |
| Tokens.ExpiredSubscriptionRefused | Infrastructure/Identity/Tokens/TokenService.cs:67-73 | a non-root tenant whose subscription ended before now refuses logins; on the expiry date itself a login is still issued |
| Tokens.EmailOfIssuedClaims | Infrastructure/Identity/Tokens/TokenService.cs:195-205 | an issued token's email claim is the user's email |
| Tokens.IssuedUserFoundByEmail | Infrastructure/Identity/Tokens/TokenService.cs:132-149 | after issuance the user found by email holds the new refresh token |
| Tokens.LoginThenRefresh | Infrastructure/Identity/Tokens/TokenService.cs:83-103 | with unique user ids, the token pair from a login can be refreshed before either half expires, when the user's email finds that user and no other |
| Tokens.RefreshRevokesOldToken | Infrastructure/Identity/Tokens/TokenService.cs:95-98 | with unique user ids, once a refresh has rotated the refresh token, presenting the old one again is refused with "Invalid token." |
| Tokens.AuthorisedThroughRoles | Infrastructure/Identity/Tokens/TokenService.cs:187-205 | a user without direct permission claims is authorised for a permission iff one of their roles grants it |
| Schools.Ids | Infrastructure/Schools/SchoolService.cs:41-46 | the ids present in the school table |
| Schools.GetById | Infrastructure/Schools/SchoolService.cs:41-46 | a school with that id is found iff the id is present |
| Schools.GetByName | Infrastructure/Schools/SchoolService.cs:48-53 | the first school with that name is found; nothing is found iff no school has it |
| Schools.Create | Infrastructure/Schools/SchoolService.cs:21-27 | the insert fails with a database error iff the school carries an explicit id (the key is an identity column), its name is missing or longer than the 60-character column, or the generated key is taken. Otherwise the school is appended under the generated key, which is returned |
| Schools.Delete | Infrastructure/Schools/SchoolService.cs:29-34 | deleting an absent school is a database error; otherwise exactly the schools with that id are gone and the id is returned |
| Schools.Update | Infrastructure/Schools/SchoolService.cs:55-60 | the update fails with a database error iff the school is absent or its name is missing or longer than the 60-character column. Otherwise the entry with that id is replaced and nothing else moves |
| Schools.CreatePreservesUniqueIds | Infrastructure/Schools/SchoolService.cs:21-27 | creation keeps the primary key unique |
| Schools.UpdatePreservesUniqueIds | Infrastructure/Schools/SchoolService.cs:55-60 | an update keeps the primary key unique |
| Schools.DeletePreservesUniqueIds | Infrastructure/Schools/SchoolService.cs:29-34 | a deletion keeps the primary key unique |
| Schools.CreateThenGetById | Infrastructure/Schools/SchoolService.cs:21-46 | a created school is found by the id returned |
| Schools.GetByIdAppended | Infrastructure/Schools/SchoolService.cs:41-46 | a school appended under a new id is found by that id |
| Schools.UpdateThenGetById | Infrastructure/Schools/SchoolService.cs:41-60 | after an update the school is found with its new fields; lookups of other ids are unchanged |
| Schools.UpdateLookup | Infrastructure/Schools/SchoolService.cs:41-60 | a lookup after replacing the entries with an id gives the replacement for that id and the old answer otherwise |
| Schools.DeleteThenGetById | Infrastructure/Schools/SchoolService.cs:29-46 | after a delete the school is no longer found; lookups of other ids are unchanged |
| Schools.UniqueLookup | Infrastructure/Schools/SchoolService.cs:41-46 | with a unique key, a lookup finds the one school with that id |
| SchoolHandlers.ToResponse | Application/Features/Schools/Queries/SchoolByNameQuery.cs:33 | the response copies every field of the school |
| SchoolHandlers.ToResponses | Application/Features/Schools/Queries/GetSchoolsQuery.cs:28 | one response per school, in order |
| SchoolHandlers.Patch | Application/Features/Schools/Commands/UpdateSchoolCommand.cs:32-34 | the school keeps its id and takes the request's name, address and date |
| SchoolHandlers.UpdateSchool | Application/Features/Schools/Commands/UpdateSchoolCommand.cs:25-37 | a missing request body throws. An unknown id answers "School not found." and changes nothing. A known id with a name the column refuses throws the database error. Otherwise the school is patched, other schools stay as they were, and the id is returned with the success message |
| SchoolHandlers.DeleteSchool | Application/Features/Schools/Commands/DeleteSchoolCommand.cs:22-31 | an unknown id answers "School not found." and changes nothing; otherwise exactly that school is removed and its id returned |
| SchoolHandlers.SchoolByName | Application/Features/Schools/Queries/SchoolByNameQuery.cs:26-34 | succeeds iff some school has the name, returning a school with that name; otherwise "School not found." |
| SchoolHandlers.GetSchools | Application/Features/Schools/Queries/GetSchoolsQuery.cs:23-32 | succeeds iff there is at least one school, returning all of them in order; otherwise "No schools found." |
| SchoolHandlers.UpdateSchoolIdempotent | Application/Features/Schools/Commands/UpdateSchoolCommand.cs:25-37 | once an update has gone through, sending it again also goes through and gives the same table |
| SchoolHandlers.DeleteTwiceNotFound | Application/Features/Schools/Commands/DeleteSchoolCommand.cs:22-31 | a second delete of the same id answers "School not found." and changes nothing |
| SchoolHandlers.UpdatedNameIsFound | Application/Features/Schools/Queries/SchoolByNameQuery.cs:26-34 | with a unique key, updating a known school succeeds iff the new name fits the column, and then a search by the new name succeeds |
| SchoolHandlers.DeleteShrinksList | Application/Features/Schools/Commands/DeleteSchoolCommand.cs:29 | with a unique key, deleting a known school removes exactly one row |
| SchoolValidation.NatToStringRoundTrip | Application/Features/Schools/Validations/CreateSchoolRequestValidator.cs:16-19 | reading the digits back gives the number, so a message determines its limit |
| SchoolValidation.StatedLimit | Application/Features/Schools/Validations/CreateSchoolRequestValidator.cs:16-19 | two length messages for the same field are equal only if their limits are |
| SchoolValidation.NameFailures | Application/Features/Schools/Validations/CreateSchoolRequestValidator.cs:14-16 | "required" iff the name is null or blank; the length message iff the name exceeds 60 characters; no failure iff both hold |
| SchoolValidation.AddressFailures | Application/Features/Schools/Validations/CreateSchoolRequestValidator.cs:17-19 | "required" iff the address is null or blank; the length message iff it exceeds 200 characters |
| SchoolValidation.CreateFailures | Application/Features/Schools/Validations/CreateSchoolRequestValidator.cs:12-22 | each rule's message appears iff that rule is broken, the date rule iff the date is after today; no failure iff the request is valid |
| SchoolValidation.ValidateCreateAsWritten | Application/Features/Schools/Validations/CreateSchoolRequestValidator.cs:12-22 | as written: valid iff all rules hold, and the "must not exceed 100" message appears iff the name exceeds 60 characters |
| SchoolValidation.ValidateCreate | Application/Features/Schools/Validations/CreateSchoolRequestValidator.cs:12-22 | valid iff all rules hold; a name-length message appears iff the name exceeds 60, and it never cites a limit the name does not exceed |
| SchoolValidation.NameLengthMessageOverstates | Application/Features/Schools/Validations/CreateSchoolRequestValidator.cs:16 | a 61-character name is rejected with a message saying the limit is 100 |
| SchoolValidation.NameLengthMessageTruthful | Application/Features/Schools/Validations/CreateSchoolRequestValidator.cs:16 | the corrected message, citing 60, is reported iff the name is longer than 60 |
| SchoolValidation.ValidateUpdateRequest | Application/Features/Schools/Validations/UpdateSchoolRequestValidator.cs:13-31 | each message appears iff its rule is broken: id zero, id unknown, address blank, name blank, date unset. No failure iff the request is valid |
| SchoolValidation.Nested | Application/Features/Schools/Validations/UpdateSchoolCommandValidator.cs:15-16 | a child failure keeps its message and is named under the parent property |
| SchoolValidation.ValidateUpdateCommand | Application/Features/Schools/Validations/UpdateSchoolCommandValidator.cs:13-18 | a null request body is not validated; otherwise the request's failures, in order, under "UpdateSchool." |
| SchoolValidation.ValidatedUpdateFindsSchool | Application/Features/Schools/Validations/UpdateSchoolRequestValidator.cs:15-21 | an update that passes validation always finds its school, so the handler's not-found branch is unreachable through the pipeline; it succeeds iff the name fits the column |
| SchoolValidation.UpdateHasNoLengthLimit | Application/Features/Schools/Validations/UpdateSchoolRequestValidator.cs:23-27 | a 61-character name is accepted by the update rules although creation rejects it, and the database then refuses the update |
| Scenarios.NoFailuresCollected | Application/Piplines/ValidationPipelineBehavior.cs:32-37 | the pipeline sees no failure iff the validator reported none |
| Scenarios.SendUpdateSchool | Application/Features/Schools/Commands/UpdateSchoolCommand.cs:12-36 | the request fails iff the body is null or invalid, or the name is longer than the column allows. A failure answers 500, with the generic text in production, and leaves the table unchanged. Otherwise the handler's successful answer and table come back |
| Scenarios.InvalidUpdateIsServerError | Application/Features/Schools/Commands/UpdateSchoolCommand.cs:12 | an update with id 0 answers 500 with the generic text in production, not a failed envelope, and changes nothing |
| Scenarios.LoginRejectionIsUnauthorized | WebApi/ErrorHandlingMiddleware.cs:56-59 | a refused login reaches the client as 401 with its one message |
| Scenarios.MissingTenantLoginIs401 | Infrastructure/Identity/Tokens/TokenService.cs:42-45 | a login without a tenant context answers 401 |
| Scenarios.GrantedNames | Infrastructure/Constants/ApplicationDbSeeder.cs:95-105 | a permission claim is granted iff its value names one of the permissions |
| Scenarios.SingleRoleAuthorisation | Infrastructure/Identity/Auth/PermissionAuthorizationHandler.cs:9-20 | a user with one role and no direct permission claims is authorised exactly for that role's permissions |
| Scenarios.BasicUserAuthorisedForBasicPermissions | Infrastructure/Constants/ApplicationDbSeeder.cs:71-74 | in a freshly seeded tenant, a Basic user is authorised exactly for the basic permissions |

## Left out

- Asynchrony, `Task.WhenAll`, cancellation tokens and logging: every call is a sequential function.
- Entity Framework mechanics: migrations, `SaveChanges` and change tracking. Database reachability and migration presence are parameters.
- Database collation: `GetByNameAsync` and the seeder's email lookup compare with exact equality, not a case-insensitive collation.
- JWT signing and cryptography: a token is an abstract signed value carrying its claims, expiry and algorithm. Signature checking is reduced to the token being `Signed`.
- Password hashing and checking are a parameter.
- GUIDs, refresh-token randomness and role identifiers are parameters.
- The clock counts whole minutes. `AddYears` ignores leap days, and `DateTime.Today` is taken as a parameter rather than read when the validator is built.
- Case-insensitive comparison maps only ASCII letters.
- String lengths are counted in Unicode scalar values rather than UTF-16 code units.
- `TenantService.GetTenantsAsync` and `GetTenantByIdAsync` are Mapster pass-throughs with nothing to prove, and are not modelled.
- The controllers, `Program.cs`, the Startup wiring and the Swagger processors are not modelled. Only the permission names the tenant endpoints demand are used.
- `TryAddAsync`/`TryUpdateAsync` results, which the source ignores, are not modelled.
- `TenancyConstants`, `ClaimConstats`, the `School` entity, `SchoolResponse`, `CreateTenantRequest` and the exception classes other than the conflict and forbidden ones are not part of this model's sources. Their constants (root tenant id, claim types, default admin password, exception texts) are placeholders of the right shape.
- `UpdateSchoolRequest.cs` is not a well-formed declaration: it holds a second handler that reads `request.Id` from the command. The request's fields (id, name, address, established date) are taken from the handler in `UpdateSchoolCommand.cs`, lines 27-34.
- `CreateSchoolCommand` and its handler are not part of this model's sources. School creation is modelled at the service level (`Schools.Create`) and through its validator.
- The non-generic branch of the validation pipeline calls a `FailAsync(List<string>)` overload that `ResponseWrapper` does not declare. `ValidationPipeline.Handle` gives it the intended meaning, a failed envelope with the messages.
- Schools.GetByName: does not model the database's case-insensitive collation, because collation is a server setting outside the code.
- AppSeeder.InitializeAdminUser: the email lookup at Infrastructure/Constants/ApplicationDbSeeder.cs:116-117 compares exactly, so a stored user whose email differs from the tenant's only in case is not found by the model, while the database's case-insensitive collation finds it. Collation is a server setting outside the code.
- AppSeeder.InitializeAdminUser: whether the user validators accept the new record (the ignored result of `CreateAsync` at line 134) is the parameter `userAccepted`. A failing `AddToRoleAsync` for a user that already exists (line 140) is not modelled, because the framework's validators are not part of this model.
- Identity.FindByName: the store's `SingleOrDefault` over the normalized user name is taken as the first match. The Identity schema's unique index on that column, which is framework code outside this model, admits at most one.

## Findings

| source | as written | input that shows it | evidently intended | confidence | as-written member | corrected member |
|---|---|---|---|---|---|---|
| Application/Piplines/ValidationPipelineBehavior.cs:43-57 | the failure method is looked up as `FailAsync(List<string>)` on `ResponseWrapper<T>`, which declares only `FailAsync()` and `FailAsync(string)`; the lookup yields null and control falls through to `throw new ValidationException` | any request whose response type is `ResponseWrapper<T>` and that has one validation failure | answer with a failed `ResponseWrapper<T>` holding the distinct error messages | not executed | ValidationPipeline.HandleAsWritten, with ValidationPipeline.GenericWrapperThrowsAsWritten | ValidationPipeline.Handle |
| Application/Features/Schools/Validations/CreateSchoolRequestValidator.cs:16 | `MaximumLength(60)` reports "School name must not exceed 100 characters." | a name of 61 letters 'a' is rejected with a message that says up to 100 is allowed | the message states the limit actually enforced, 60 | not executed | SchoolValidation.ValidateCreateAsWritten, with SchoolValidation.NameLengthMessageOverstates | SchoolValidation.ValidateCreate, with SchoolValidation.NameLengthMessageTruthful |
