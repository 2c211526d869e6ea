/** The tenant record and the root tenant's constants
    (ABCSchoolTenantInfo and TenancyConstants, as the seeders and the tenant
    service use them). */
module TenantInfo {
  import opened Common

  /** ABCSchoolTenantInfo */
  datatype Tenant = Tenant(
    id: string,
    identifier: Option<string>,
    name: Option<string>,
    connectionString: Option<string>,
    email: Option<string>,
    firstName: Option<string>,
    lastName: Option<string>,
    isActive: bool,
    validUpTo: int)

  /** TenancyConstants.Root.Id and the other root-tenant constants. Their
      definitions are not part of this model; these stand-ins are only
      required to be fixed strings, and the root email to be non-empty. */
  const RootId: string := "root"
  const RootName: string := "Root"
  const RootEmail: string := "admin.root@school.example"
  const RootFirstName: string := "Root"
  const RootLastName: string := "Admin"

  predicate IsRoot(t: Tenant) {
    t.id == RootId
  }
}
