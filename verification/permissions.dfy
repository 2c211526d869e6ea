/** The permission catalogue: how a permission's claim value is spelled,
    the 23 catalogue entries, and the Root, Admin and Basic subsets that the
    seeder hands to the default roles
    (Infrastructure/Constants/PremissionConstants.cs). */
module Permissions {
  import opened Common

  /** SchoolAction: the verbs a permission can grant. */
  datatype Action = Read | Create | Update | Delete | RefreshToken | UpgradeSubscription

  /** SchoolFeature: the resources a permission applies to. */
  datatype Feature = Tenants | Users | Roles | UserRoles | RoleClaims | Schools | Tokens

  /** nameof(...) of each action constant. */
  function ActionName(a: Action): string {
    match a
    case Read => "Read"
    case Create => "Create"
    case Update => "Update"
    case Delete => "Delete"
    case RefreshToken => "RefreshToken"
    case UpgradeSubscription => "UpgradeSubscription"
  }

  /** nameof(...) of each feature constant; none of them contains a dot. */
  function FeatureName(f: Feature): (r: string)
    ensures '.' !in r
  {
    match f
    case Tenants => "Tenants"
    case Users => "Users"
    case Roles => "Roles"
    case UserRoles => "UserRoles"
    case RoleClaims => "RoleClaims"
    case Schools => "Schools"
    case Tokens => "Tokens"
  }

  const NamePrefix: string := "Permission."

  /** SchoolPermission.NameFor: the claim value demanded for `action` on `feature`. */
  function NameFor(action: string, feature: string): string {
    NamePrefix + feature + "." + action
  }

  // ---------------------------------------------------------------------
  // Reading a permission name back
  // ---------------------------------------------------------------------

  /** Position of the first occurrence of `c` in `s`. */
  function IndexOf(s: string, c: char): (r: Option<nat>)
    ensures r.Some? ==> r.value < |s| && s[r.value] == c && c !in s[..r.value]
    ensures r.None? ==> c !in s
  {
    if |s| == 0 then None
    else if s[0] == c then Some(0)
    else
      match IndexOf(s[1..], c)
      case None => None
      case Some(k) =>
        assert s[1..][..k] == s[1..k + 1];
        Some(k + 1)
  }

  /** Splits "Permission.<feature>.<action>" into (feature, action), cutting
      the remainder at its first dot. */
  function ParseName(name: string): Option<(string, string)> {
    if |name| < |NamePrefix| || name[..|NamePrefix|] != NamePrefix then None
    else
      var rest := name[|NamePrefix|..];
      match IndexOf(rest, '.')
      case None => None
      case Some(k) => Some((rest[..k], rest[k + 1..]))
  }

  lemma {:induction false} IndexOfFinds(s: string, c: char, k: nat)
    requires k < |s| && s[k] == c && c !in s[..k]
    ensures IndexOf(s, c) == Some(k)
  {
    if k > 0 {
      assert s[0] == s[..k][0];
      assert s[1..][..k - 1] == s[1..k];
      IndexOfFinds(s[1..], c, k - 1);
    }
  }

  /** A name built from a dot-free feature reads back as the same pair. */
  lemma NameForRoundTrip(action: string, feature: string)
    requires '.' !in feature
    ensures ParseName(NameFor(action, feature)) == Some((feature, action))
  {
    var name := NameFor(action, feature);
    assert name[..|NamePrefix|] == NamePrefix;
    var rest := name[|NamePrefix|..];
    assert rest == feature + "." + action;
    assert rest[..|feature|] == feature;
    IndexOfFinds(rest, '.', |feature|);
    assert rest[|feature| + 1..] == action;
  }

  /** Different (feature, action) pairs over dot-free features never share a name. */
  lemma NameForInjective(a1: string, f1: string, a2: string, f2: string)
    requires '.' !in f1 && '.' !in f2
    requires NameFor(a1, f1) == NameFor(a2, f2)
    ensures a1 == a2 && f1 == f2
  {
    NameForRoundTrip(a1, f1);
    NameForRoundTrip(a2, f2);
  }

  // ---------------------------------------------------------------------
  // The catalogue
  // ---------------------------------------------------------------------

  /** SchoolPermission(Action, Feature, Description, Group, IsBasic, IsRoot). */
  datatype Permission = Permission(
    action: Action,
    feature: Feature,
    description: string,
    group: string,
    isBasic: bool,
    isRoot: bool)
  {
    /** SchoolPermission.Name */
    function Name(): string {
      NameFor(ActionName(action), FeatureName(feature))
    }
  }

  /** SchoolPermissions._allPermissions, in declaration order. */
  const All: seq<Permission> := [
    Permission(Create, Tenants, "Permission to create tenants", "Tenancy", false, true),
    Permission(Read, Tenants, "Permission to read tenants", "Tenancy", false, true),
    Permission(Delete, Tenants, "Permission to delete tenants", "Tenancy", false, true),
    Permission(Read, Users, "Permission to read users", "SystemAccess", true, false),
    Permission(Create, Users, "Permission to create users", "SystemAccess", false, false),
    Permission(Update, Users, "Permission to update users", "SystemAccess", false, false),
    Permission(Delete, Users, "Permission to delete users", "SystemAccess", false, false),
    Permission(Read, UserRoles, "Permission to read user roles", "SystemAccess", true, false),
    Permission(Create, UserRoles, "Permission to create user roles", "SystemAccess", false, false),
    Permission(Update, UserRoles, "Permission to update user roles", "SystemAccess", false, false),
    Permission(Delete, UserRoles, "Permission to delete user roles", "SystemAccess", false, false),
    Permission(Read, Roles, "Permission to read roles", "SystemAccess", true, false),
    Permission(Create, Roles, "Permission to create roles", "SystemAccess", false, false),
    Permission(Update, Roles, "Permission to update roles", "SystemAccess", false, false),
    Permission(Delete, Roles, "Permission to delete roles", "SystemAccess", false, false),
    Permission(Read, RoleClaims, "Read Role Claims/Permissions", "SystemAccess", false, false),
    Permission(Update, RoleClaims, "Update Role Claims/Permissions", "SystemAccess", false, false),
    Permission(Read, Schools, "Permission to read schools", "Academics", true, false),
    Permission(Create, Schools, "Permission to create schools", "Academics", false, false),
    Permission(Update, Schools, "Permission to update schools", "Academics", false, false),
    Permission(Delete, Schools, "Permission to delete schools", "Academics", false, false),
    Permission(UpgradeSubscription, Schools, "Permission to upgrade school subscription", "Academics", false, false),
    Permission(RefreshToken, Tokens, "Generate Refresh Token", "SystemAccess", true, false)
  ]

  function IsRootEntry(p: Permission): bool { p.isRoot }
  function IsAdminEntry(p: Permission): bool { !p.isRoot }
  function IsBasicEntry(p: Permission): bool { p.isBasic }

  /** SchoolPermissions.Root: entries with IsRoot set. */
  const Root: seq<Permission> := Filter(All, IsRootEntry)

  /** SchoolPermissions.Admin: entries without IsRoot. */
  const Admin: seq<Permission> := Filter(All, IsAdminEntry)

  /** SchoolPermissions.Basic: entries with IsBasic set. */
  const Basic: seq<Permission> := Filter(All, IsBasicEntry)

  /** The claim values a list of permissions grants, in list order. */
  function Names(ps: seq<Permission>): (r: seq<string>)
    ensures |r| == |ps|
    ensures forall i :: 0 <= i < |ps| ==> r[i] == ps[i].Name()
  {
    seq(|ps|, i requires 0 <= i < |ps| => ps[i].Name())
  }

  lemma NamesAppend(a: seq<Permission>, b: seq<Permission>)
    ensures Names(a + b) == Names(a) + Names(b)
  {
  }

  // ---------------------------------------------------------------------
  // Facts about the catalogue
  // ---------------------------------------------------------------------

  /** The (feature, action) pair of an entry. */
  function Key(p: Permission): (Feature, Action) { (p.feature, p.action) }

  /** No catalogue entry is both a root and a basic permission. */
  lemma RootAndBasicDisjoint()
    ensures forall i :: 0 <= i < |All| ==> !(All[i].isRoot && All[i].isBasic)
  {
  }

  /** Only the first three entries are root entries. */
  lemma RootEntriesLeadTheCatalogue()
    ensures |All| == 23
    ensures forall i :: 0 <= i < 3 ==> All[i].isRoot
    ensures forall i :: 3 <= i < |All| ==> !All[i].isRoot
  {
  }

  /** The Root subset is exactly create, read and delete on tenants, in that order. */
  lemma RootIsTenantAdministration()
    ensures |Root| == 3
    ensures Key(Root[0]) == (Tenants, Create)
    ensures Key(Root[1]) == (Tenants, Read)
    ensures Key(Root[2]) == (Tenants, Delete)
  {
    RootIsCataloguePrefix();
    var r := All[..3];
    assert r[0] == All[0] && r[1] == All[1] && r[2] == All[2];
  }

  /** Root is the first three catalogue entries. */
  lemma RootIsCataloguePrefix()
    ensures Root == All[..3]
  {
    RootEntriesLeadTheCatalogue();
    LeadingRootEntries(All, 3);
  }

  lemma LeadingRootEntries(s: seq<Permission>, k: nat)
    requires k <= |s|
    requires forall i :: 0 <= i < k ==> s[i].isRoot
    requires forall i :: k <= i < |s| ==> !s[i].isRoot
    ensures Filter(s, IsRootEntry) == s[..k]
  {
    assert s == s[..k] + s[k..];
    FilterAppend(s[..k], s[k..], IsRootEntry);
    FilterKeepsAll(s[..k], IsRootEntry);
    FilterDropsAll(s[k..], IsRootEntry);
  }

  /** Root and Admin partition the catalogue: together they hold every entry
      exactly as often as the catalogue does, and share none. */
  lemma RootAdminPartition()
    ensures multiset(Root) + multiset(Admin) == multiset(All)
    ensures forall p :: !(p in Root && p in Admin)
  {
    RootAdminSplit(All);
  }

  lemma RootAdminSplit(s: seq<Permission>)
    ensures multiset(Filter(s, IsRootEntry)) + multiset(Filter(s, IsAdminEntry)) == multiset(s)
  {
    FilterPartition(s, IsRootEntry, IsAdminEntry);
  }

  /** Basic is the order-preserving subsequence of Admin with IsBasic set,
      so every basic permission is also an admin permission. */
  lemma BasicWithinAdmin()
    ensures Basic == Filter(Admin, IsBasicEntry)
    ensures forall p :: p in Basic ==> p in Admin
  {
    RootAndBasicDisjoint();
    BasicWithinAdminOf(All);
  }

  lemma BasicWithinAdminOf(s: seq<Permission>)
    requires forall i :: 0 <= i < |s| ==> !(s[i].isRoot && s[i].isBasic)
    ensures Filter(s, IsBasicEntry) == Filter(Filter(s, IsAdminEntry), IsBasicEntry)
  {
    FilterCompose(s, IsAdminEntry, IsBasicEntry, IsBasicEntry);
  }

  /** No two catalogue entries share a (feature, action) pair. */
  lemma CatalogueKeysDistinct()
    ensures forall i, j :: 0 <= i < j < |All| ==> Key(All[i]) != Key(All[j])
  {
  }

  /** Entries with different (feature, action) pairs have different names. */
  lemma NameDeterminesKey(p: Permission, q: Permission)
    requires p.Name() == q.Name()
    ensures Key(p) == Key(q)
  {
    NameForInjective(ActionName(p.action), FeatureName(p.feature), ActionName(q.action), FeatureName(q.feature));
    assert FeatureName(p.feature) == FeatureName(q.feature) ==> p.feature == q.feature;
    assert ActionName(p.action) == ActionName(q.action) ==> p.action == q.action;
  }

  /** All 23 catalogue names are distinct. */
  lemma CatalogueNamesDistinct()
    ensures NoDuplicates(Names(All))
  {
    CatalogueKeysDistinct();
    forall i, j | 0 <= i < j < |All|
      ensures Names(All)[i] != Names(All)[j]
    {
      if All[i].Name() == All[j].Name() {
        NameDeterminesKey(All[i], All[j]);
      }
    }
  }

  /** The name demanded for `action` on `feature` is granted by the catalogue
      only if the catalogue has an entry with exactly that pair. */
  lemma NameInCatalogueHasEntry(action: Action, feature: Feature)
    requires NameFor(ActionName(action), FeatureName(feature)) in Names(All)
    ensures exists i :: 0 <= i < |All| && Key(All[i]) == (feature, action)
  {
    var i :| 0 <= i < |All| && Names(All)[i] == NameFor(ActionName(action), FeatureName(feature));
    NameDeterminesKey(All[i], Permission(action, feature, "", "", false, false));
  }

  /** The tenant endpoints for activation, deactivation and subscription
      upgrade demand "Permission.Tenants.Update" and
      "Permission.Tenants.UpgradeSubscription"; neither is in the catalogue. */
  lemma TenantUpdatePermissionsNotInCatalogue()
    ensures NameFor("Update", "Tenants") !in Names(All)
    ensures NameFor("UpgradeSubscription", "Tenants") !in Names(All)
  {
    if NameFor("Update", "Tenants") in Names(All) {
      assert NameFor(ActionName(Update), FeatureName(Tenants)) == NameFor("Update", "Tenants");
      NameInCatalogueHasEntry(Update, Tenants);
      assert false;
    }
    if NameFor("UpgradeSubscription", "Tenants") in Names(All) {
      assert NameFor(ActionName(UpgradeSubscription), FeatureName(Tenants)) == NameFor("UpgradeSubscription", "Tenants");
      NameInCatalogueHasEntry(UpgradeSubscription, Tenants);
      assert false;
    }
  }

  /** A root permission and an admin permission never share a claim value, so
      granting Root on top of Admin always grants something new. */
  lemma RootNamesNotAdminNames()
    ensures forall p, q :: p in Root && q in Admin ==> p.Name() != q.Name()
  {
    CatalogueKeysDistinct();
    SplitNamesDisjoint(All);
  }

  lemma SplitNamesDisjoint(s: seq<Permission>)
    requires forall i, j :: 0 <= i < j < |s| ==> Key(s[i]) != Key(s[j])
    ensures forall p, q :: p in Filter(s, IsRootEntry) && q in Filter(s, IsAdminEntry) ==> p.Name() != q.Name()
  {
    forall p, q | p in Filter(s, IsRootEntry) && q in Filter(s, IsAdminEntry)
      ensures p.Name() != q.Name()
    {
      var i :| 0 <= i < |s| && s[i] == p;
      var j :| 0 <= j < |s| && s[j] == q;
      assert Key(p) != Key(q) by {
        if i < j { assert Key(s[i]) != Key(s[j]); } else { assert Key(s[j]) != Key(s[i]); }
      }
      DistinctKeysDistinctNames(p, q);
    }
  }

  lemma DistinctKeysDistinctNames(p: Permission, q: Permission)
    requires Key(p) != Key(q)
    ensures p.Name() != q.Name()
  {
    if p.Name() == q.Name() {
      NameDeterminesKey(p, q);
    }
  }
}
