/** Administrative roles, what they carry, and the rule that turns an account's assignments into
  its effective permissions.
 */
module AdminRbac {

  datatype Permission =
    | DashboardRead | UsersRead | UsersUpdate | UsersSuspend | UsersImpersonate | CompaniesRead |
    CompaniesVerify | CompaniesSuspend | RecruitersRead | JobsRead | JobsModerate | ApplicationsRead |
    CommunitiesModerate | ReportsRead | ReportsResolve | ModerationReview | VerificationsReview |
    SystemJobsRead | SystemJobsRetry | IncidentsManage | MaintenanceManage | ObservabilityRead |
    SystemSettings | FeatureFlags | Announcements | AnalyticsRead | AuditLogsRead | SecurityEventsRead |
    RolesManage | NotificationsRead | NotificationsManage | SupportRead | SupportManage | ComplianceRead |
    ComplianceManage | BillingRead | BackupsRead | BackupsManage | DataOpsRead | DataOpsManage |
    SecurityManage | AnalyticsManage | FreelancersRead | FreelancersManage | FreelanceAdminRead |
    FreelanceAdminWrite
  {
    /** Where the permission stands in the list of all of them. */
    function Position(): nat {
      match this
      case DashboardRead => 0
      case UsersRead => 1
      case UsersUpdate => 2
      case UsersSuspend => 3
      case UsersImpersonate => 4
      case CompaniesRead => 5
      case CompaniesVerify => 6
      case CompaniesSuspend => 7
      case RecruitersRead => 8
      case JobsRead => 9
      case JobsModerate => 10
      case ApplicationsRead => 11
      case CommunitiesModerate => 12
      case ReportsRead => 13
      case ReportsResolve => 14
      case ModerationReview => 15
      case VerificationsReview => 16
      case SystemJobsRead => 17
      case SystemJobsRetry => 18
      case IncidentsManage => 19
      case MaintenanceManage => 20
      case ObservabilityRead => 21
      case SystemSettings => 22
      case FeatureFlags => 23
      case Announcements => 24
      case AnalyticsRead => 25
      case AuditLogsRead => 26
      case SecurityEventsRead => 27
      case RolesManage => 28
      case NotificationsRead => 29
      case NotificationsManage => 30
      case SupportRead => 31
      case SupportManage => 32
      case ComplianceRead => 33
      case ComplianceManage => 34
      case BillingRead => 35
      case BackupsRead => 36
      case BackupsManage => 37
      case DataOpsRead => 38
      case DataOpsManage => 39
      case SecurityManage => 40
      case AnalyticsManage => 41
      case FreelancersRead => 42
      case FreelancersManage => 43
      case FreelanceAdminRead => 44
      case FreelanceAdminWrite => 45
    }
  }

  /** The wire code of a permission. */
  function Code(p: Permission): string {
    match p
    case DashboardRead => "dashboard.read"
    case UsersRead => "users.read"
    case UsersUpdate => "users.update"
    case UsersSuspend => "users.suspend"
    case UsersImpersonate => "users.impersonate"
    case CompaniesRead => "companies.read"
    case CompaniesVerify => "companies.verify"
    case CompaniesSuspend => "companies.suspend"
    case RecruitersRead => "recruiters.read"
    case JobsRead => "jobs.read"
    case JobsModerate => "jobs.moderate"
    case ApplicationsRead => "applications.read"
    case CommunitiesModerate => "communities.moderate"
    case ReportsRead => "reports.read"
    case ReportsResolve => "reports.resolve"
    case ModerationReview => "moderation.review"
    case VerificationsReview => "verifications.review"
    case SystemJobsRead => "system_jobs.read"
    case SystemJobsRetry => "system_jobs.retry"
    case IncidentsManage => "incidents.manage"
    case MaintenanceManage => "maintenance.manage"
    case ObservabilityRead => "observability.read"
    case SystemSettings => "system_settings.manage"
    case FeatureFlags => "feature_flags.manage"
    case Announcements => "announcements.manage"
    case AnalyticsRead => "analytics.read"
    case AuditLogsRead => "audit_logs.read"
    case SecurityEventsRead => "security_events.read"
    case RolesManage => "roles.manage"
    case NotificationsRead => "notifications.read"
    case NotificationsManage => "notifications.manage"
    case SupportRead => "support.read"
    case SupportManage => "support.manage"
    case ComplianceRead => "compliance.read"
    case ComplianceManage => "compliance.manage"
    case BillingRead => "billing.read"
    case BackupsRead => "backups.read"
    case BackupsManage => "backups.manage"
    case DataOpsRead => "data_operations.read"
    case DataOpsManage => "data_operations.manage"
    case SecurityManage => "security.manage"
    case AnalyticsManage => "analytics.manage"
    case FreelancersRead => "freelancers.read"
    case FreelancersManage => "freelancers.manage"
    case FreelanceAdminRead => "freelance.admin.read"
    case FreelanceAdminWrite => "freelance.admin.write"
  }

  const PERMISSION_COUNT: nat := 46

  /** The list of all permissions, entry by entry. */
  function Listed(i: nat): Permission
    requires i < PERMISSION_COUNT
  {
    if i < 23 then ListedEarly(i) else ListedLate(i)
  }

  function ListedEarly(i: nat): Permission
    requires 0 <= i < 23
  {
    match i
    case 0 => DashboardRead
    case 1 => UsersRead
    case 2 => UsersUpdate
    case 3 => UsersSuspend
    case 4 => UsersImpersonate
    case 5 => CompaniesRead
    case 6 => CompaniesVerify
    case 7 => CompaniesSuspend
    case 8 => RecruitersRead
    case 9 => JobsRead
    case 10 => JobsModerate
    case 11 => ApplicationsRead
    case 12 => CommunitiesModerate
    case 13 => ReportsRead
    case 14 => ReportsResolve
    case 15 => ModerationReview
    case 16 => VerificationsReview
    case 17 => SystemJobsRead
    case 18 => SystemJobsRetry
    case 19 => IncidentsManage
    case 20 => MaintenanceManage
    case 21 => ObservabilityRead
    case _ => SystemSettings
  }

  function ListedLate(i: nat): Permission
    requires 23 <= i < 46
  {
    match i
    case 23 => FeatureFlags
    case 24 => Announcements
    case 25 => AnalyticsRead
    case 26 => AuditLogsRead
    case 27 => SecurityEventsRead
    case 28 => RolesManage
    case 29 => NotificationsRead
    case 30 => NotificationsManage
    case 31 => SupportRead
    case 32 => SupportManage
    case 33 => ComplianceRead
    case 34 => ComplianceManage
    case 35 => BillingRead
    case 36 => BackupsRead
    case 37 => BackupsManage
    case 38 => DataOpsRead
    case 39 => DataOpsManage
    case 40 => SecurityManage
    case 41 => AnalyticsManage
    case 42 => FreelancersRead
    case 43 => FreelancersManage
    case 44 => FreelanceAdminRead
    case _ => FreelanceAdminWrite
  }

  function AllPermissions(): seq<Permission> {
    seq(PERMISSION_COUNT, i requires 0 <= i < PERMISSION_COUNT => Listed(i))
  }

  datatype Role =
    | SuperAdmin | PlatformAdmin | UserAdmin | TrustSafetyAdmin | ContentModerator
    | VerificationAdmin | SupportAdmin | AnalyticsAdmin | OperationsAdmin | ReadOnlyAdmin
    | UnknownRole(code: string)

  // ----- the derived lists -----

  function Keep(ps: seq<Permission>, wanted: Permission -> bool): seq<Permission> {
    if ps == [] then []
    else Keep(ps[..|ps| - 1], wanted) + (if wanted(ps[|ps| - 1]) then [ps[|ps| - 1]] else [])
  }

  lemma KeepStep(ps: seq<Permission>, wanted: Permission -> bool, i: nat)
    requires i < |ps|
    ensures Keep(ps[..i + 1], wanted) == Keep(ps[..i], wanted) + (if wanted(ps[i]) then [ps[i]] else [])
  {
    assert ps[..i + 1][..i] == ps[..i];
  }

  lemma {:induction false} KeepIsFilter(ps: seq<Permission>, wanted: Permission -> bool, p: Permission)
    ensures p in Keep(ps, wanted) <==> p in ps && wanted(p)
    decreases |ps|
  {
    if ps != [] {
      KeepIsFilter(ps[..|ps| - 1], wanted, p);
      assert ps == ps[..|ps| - 1] + [ps[|ps| - 1]];
    }
  }

  /** Codes that end in ".read" and say something before it. */
  predicate IsRead(p: Permission) {
    var code := Code(p);
    |code| > 5 && code[|code| - 5..] == ".read"
  }

  method Except(all: seq<Permission>, excluded: seq<Permission>) returns (kept: seq<Permission>)
    ensures kept == Keep(all, p => p !in excluded)
  {
    var skip: set<Permission> := {};
    for i := 0 to |excluded|
      invariant skip == set j | 0 <= j < i :: excluded[j]
    {
      skip := skip + {excluded[i]};
    }
    kept := [];
    for i := 0 to |all|
      invariant kept == Keep(all[..i], p => p !in excluded)
    {
      KeepStep(all, p => p !in excluded, i);
      if all[i] !in skip {
        kept := kept + [all[i]];
      }
    }
    assert all[..|all|] == all;
  }

  method ReadOnly(all: seq<Permission>) returns (kept: seq<Permission>)
    ensures kept == Keep(all, IsRead)
  {
    kept := [];
    for i := 0 to |all|
      invariant kept == Keep(all[..i], IsRead)
    {
      KeepStep(all, IsRead, i);
      if IsRead(all[i]) {
        kept := kept + [all[i]];
      }
    }
    assert all[..|all|] == all;
  }

  function AllExcept(excluded: seq<Permission>): (kept: seq<Permission>)
    ensures forall p :: p in kept <==> p in AllPermissions() && p !in excluded
  {
    var wanted := p => p !in excluded;
    assert forall p :: p in Keep(AllPermissions(), wanted) <==> p in AllPermissions() && wanted(p) by {
      forall p ensures p in Keep(AllPermissions(), wanted) <==> p in AllPermissions() && wanted(p) {
        KeepIsFilter(AllPermissions(), wanted, p);
      }
    }
    Keep(AllPermissions(), wanted)
  }

  function AllReads(): (kept: seq<Permission>)
    ensures forall p :: p in kept <==> p in AllPermissions() && IsRead(p)
  {
    assert forall p :: p in Keep(AllPermissions(), IsRead) <==> p in AllPermissions() && IsRead(p) by {
      forall p ensures p in Keep(AllPermissions(), IsRead) <==> p in AllPermissions() && IsRead(p) {
        KeepIsFilter(AllPermissions(), IsRead, p);
      }
    }
    Keep(AllPermissions(), IsRead)
  }

  /** What a known role carries; an unknown one carries nothing. */
  function PermissionsForRole(role: Role): seq<Permission> {
    match role
    case SuperAdmin => AllPermissions()
    case PlatformAdmin => AllExcept([RolesManage, UsersImpersonate])
    case UserAdmin => [
      DashboardRead, UsersRead, UsersUpdate, UsersSuspend, CompaniesRead, RecruitersRead, FreelancersRead,
      FreelancersManage, FreelanceAdminRead]
    case TrustSafetyAdmin => [
      DashboardRead, ReportsRead, ReportsResolve, ModerationReview, CommunitiesModerate, UsersRead, UsersSuspend,
      FreelancersRead, FreelancersManage, FreelanceAdminRead, FreelanceAdminWrite]
    case ContentModerator => [
      DashboardRead, JobsRead, JobsModerate, ApplicationsRead, CommunitiesModerate, ReportsRead, ReportsResolve,
      ModerationReview]
    case VerificationAdmin => [
      DashboardRead, VerificationsReview, CompaniesRead, CompaniesVerify, CompaniesSuspend]
    case SupportAdmin => [
      DashboardRead, UsersRead, ReportsRead, SupportRead, SupportManage, NotificationsRead]
    case AnalyticsAdmin => [
      DashboardRead, AnalyticsRead, AuditLogsRead, SecurityEventsRead, ObservabilityRead, AnalyticsManage,
      BillingRead]
    case OperationsAdmin => [
      DashboardRead, SystemJobsRead, SystemJobsRetry, IncidentsManage, MaintenanceManage, ObservabilityRead,
      BackupsRead, BackupsManage, DataOpsRead, DataOpsManage, NotificationsRead, NotificationsManage]
    case ReadOnlyAdmin => AllReads()
    case UnknownRole(_) => []
  }

  /** An unknown code is a mistake, not a role with no permissions. */
  predicate Known(role: Role) { !role.UnknownRole? }

  // ----- the rule -----

  /** Append what is not there yet. */
  function Collect(acc: seq<Permission>, ps: seq<Permission>): seq<Permission> {
    if ps == [] then acc
    else
      var rest := Collect(acc, ps[..|ps| - 1]);
      if ps[|ps| - 1] in rest then rest else rest + [ps[|ps| - 1]]
  }

  function CollectRoles(roles: seq<Role>): seq<Permission> {
    if roles == [] then [] else Collect(CollectRoles(roles[..|roles| - 1]), PermissionsForRole(roles[|roles| - 1]))
  }

  /** No assignment means every permission; an assignment, exactly what its roles carry. */
  function Effective(roles: seq<Role>): seq<Permission> {
    if roles == [] then AllPermissions() else CollectRoles(roles)
  }

  method EffectivePermissions(assignedRoles: seq<Role>) returns (effective: seq<Permission>)
    ensures effective == Effective(assignedRoles)
  {
    if |assignedRoles| == 0 {
      return AllPermissions();
    }
    var seen: set<Permission> := {};
    effective := [];
    for i := 0 to |assignedRoles|
      invariant effective == CollectRoles(assignedRoles[..i])
      invariant seen == set p | p in effective
    {
      var perms := PermissionsForRole(assignedRoles[i]);
      ghost var before := effective;
      for j := 0 to |perms|
        invariant effective == Collect(before, perms[..j])
        invariant seen == set p | p in effective
      {
        assert perms[..j + 1][..j] == perms[..j];
        if perms[j] !in seen {
          seen := seen + {perms[j]};
          effective := effective + [perms[j]];
        }
      }
      assert perms[..|perms|] == perms && assignedRoles[..i + 1][..i] == assignedRoles[..i];
    }
    assert assignedRoles[..|assignedRoles|] == assignedRoles;
  }

  method HasPermission(effective: seq<Permission>, required: Permission) returns (has: bool)
    ensures has <==> required in effective
  {
    for i := 0 to |effective|
      invariant required !in effective[..i]
    {
      if effective[i] == required {
        return true;
      }
    }
    return false;
  }
}

/** What the rule promises. */
module AdminRbacTheorems {
  import opened AdminRbac

  ghost predicate NoDuplicates(ps: seq<Permission>) {
    forall i, j :: 0 <= i < j < |ps| ==> ps[i] != ps[j]
  }

  ghost predicate Carries(roles: seq<Role>, p: Permission) {
    SomeGives(PermissionsForRole, roles, p)
  }

  ghost predicate SomeGives(table: Role -> seq<Permission>, roles: seq<Role>, p: Permission) {
    exists r :: r in roles && p in table(r)
  }

  lemma MoreRolesGiveMore(table: Role -> seq<Permission>, a: seq<Role>, b: seq<Role>, p: Permission)
    requires SomeGives(table, a, p) && forall r :: r in a ==> r in b
    ensures SomeGives(table, b, p)
  {
    var r :| r in a && p in table(r);
    assert r in b;
  }

  lemma SomeGivesSplit(table: Role -> seq<Permission>, roles: seq<Role>, last: Role, p: Permission)
    ensures SomeGives(table, roles + [last], p) <==> SomeGives(table, roles, p) || p in table(last)
  {
    assert last in roles + [last];
    if SomeGives(table, roles, p) {
      MoreRolesGiveMore(table, roles, roles + [last], p);
    }
  }

  lemma {:induction false} CollectFacts(acc: seq<Permission>, ps: seq<Permission>, p: Permission)
    ensures p in Collect(acc, ps) <==> p in acc || p in ps
    ensures NoDuplicates(acc) ==> NoDuplicates(Collect(acc, ps))
    decreases |ps|
  {
    if ps != [] {
      CollectFacts(acc, ps[..|ps| - 1], p);
      assert ps == ps[..|ps| - 1] + [ps[|ps| - 1]];
    }
  }

  lemma {:induction false} CollectRolesFacts(roles: seq<Role>, p: Permission)
    ensures p in CollectRoles(roles) <==> Carries(roles, p)
    ensures NoDuplicates(CollectRoles(roles))
    decreases |roles|
  {
    if roles != [] {
      var init, last := roles[..|roles| - 1], roles[|roles| - 1];
      CollectRolesFacts(init, p);
      CollectFacts(CollectRoles(init), PermissionsForRole(last), p);
      assert roles == init + [last];
      SomeGivesSplit(PermissionsForRole, init, last, p);
    }
  }

  lemma ListedAtPosition(i: nat)
    requires i < PERMISSION_COUNT
    ensures Listed(i).Position() == i
  {
  }

  lemma {:induction false} PositionIsListed(p: Permission)
    ensures p.Position() < PERMISSION_COUNT && Listed(p.Position()) == p
  {
  }

  lemma EverythingIsListed(p: Permission)
    ensures p in AllPermissions()
  {
    PositionIsListed(p);
    var i := p.Position();
    assert AllPermissions()[i] == Listed(i);
  }

  /** Membership of the effective set: everything without an assignment, the union with one. */
  lemma EffectiveIsTheUnion(roles: seq<Role>, p: Permission)
    ensures p in Effective(roles) <==> roles == [] || Carries(roles, p)
  {
    if roles == [] {
      EverythingIsListed(p);
    } else {
      CollectRolesFacts(roles, p);
    }
  }

  lemma EffectiveHasNoDuplicates(roles: seq<Role>)
    ensures NoDuplicates(Effective(roles))
  {
    if roles == [] {
      ListedOnce();
    } else {
      CollectRolesFacts(roles, RolesManage);
    }
  }

  lemma ListedOnce()
    ensures NoDuplicates(AllPermissions())
  {
    var ps := AllPermissions();
    forall i: nat, j: nat | i < j < |ps| ensures ps[i] != ps[j] {
      ListedAtPosition(i);
      ListedAtPosition(j);
    }
  }

  /** The effective set depends only on which roles are assigned, not on order or repetition. */
  lemma OnlyTheSetMatters(a: seq<Role>, b: seq<Role>, p: Permission)
    requires forall r :: r in a <==> r in b
    ensures p in Effective(a) <==> p in Effective(b)
  {
    EffectiveIsTheUnion(a, p);
    EffectiveIsTheUnion(b, p);
    if a != [] {
      assert a[0] in b;
    }
    if b != [] {
      assert b[0] in a;
    }
    if Carries(a, p) {
      MoreRolesGiveMore(PermissionsForRole, a, b, p);
    } else if Carries(b, p) {
      MoreRolesGiveMore(PermissionsForRole, b, a, p);
    }
  }

  /** No arrangement of roles grants more than assigning none. */
  lemma NothingExceedsNoRole(roles: seq<Role>, p: Permission)
    ensures p in Effective(roles) ==> p in Effective([])
  {
    EverythingIsListed(p);
  }

  /** Adding a role is never a widening exactly when there was none before, or the role brings
    nothing its holder did not have: the rule is not monotone in either direction. */
  lemma AssignmentNarrows(roles: seq<Role>, r: Role)
    ensures (forall p :: p in Effective(roles + [r]) ==> p in Effective(roles)) <==>
            (roles == [] || forall p :: p in PermissionsForRole(r) ==> p in Effective(roles))
  {
    forall p ensures p in Effective(roles + [r]) <==> Carries(roles, p) || p in PermissionsForRole(r) {
      EffectiveIsTheUnion(roles + [r], p);
      SomeGivesSplit(PermissionsForRole, roles, r, p);
    }
    forall p ensures p in Effective(roles) <==> roles == [] || Carries(roles, p) {
      EffectiveIsTheUnion(roles, p);
    }
  }

  /** The right to manage roles is held by accounts with no assignment and by super admins only. */
  lemma WhoManagesRoles(roles: seq<Role>)
    ensures RolesManage in Effective(roles) <==> roles == [] || SuperAdmin in roles
  {
    EffectiveIsTheUnion(roles, RolesManage);
    forall r | r in roles ensures RolesManage in PermissionsForRole(r) <==> r.SuperAdmin? {
      OnlySuperAdminManages(r);
    }
  }

  lemma OtherSuffix(code: string)
    requires |code| == 12 && code[7] == 'a'
    ensures code[|code| - 5..] != ".read"
  {
    assert code[|code| - 5..][0] == code[7];
  }

  lemma ManagingIsNotReading()
    ensures !IsRead(RolesManage)
  {
    OtherSuffix(Code(RolesManage));
  }

  lemma OnlySuperAdminManages(r: Role)
    ensures RolesManage in PermissionsForRole(r) <==> r.SuperAdmin?
  {
    if r.SuperAdmin? {
      EverythingIsListed(RolesManage);
    } else if r.ReadOnlyAdmin? {
      ManagingIsNotReading();
    } else if !r.PlatformAdmin? {
      DesksDoNotManage(r);
    }
  }

  lemma DesksDoNotManage(r: Role)
    requires !r.SuperAdmin? && !r.PlatformAdmin? && !r.ReadOnlyAdmin?
    ensures RolesManage !in PermissionsForRole(r)
  {
  }

  /** A platform administrator may do everything but manage roles and become somebody else. */
  lemma PlatformAdminLacksTwo(p: Permission)
    ensures p in PermissionsForRole(PlatformAdmin) <==> p != RolesManage && p != UsersImpersonate
  {
    EverythingIsListed(p);
  }

  lemma ImpersonationIsNotReading()
    ensures !IsRead(UsersImpersonate)
  {
    var code := Code(UsersImpersonate);
    assert code[|code| - 5..][0] == code[12];
  }

  lemma OnlySuperAdminImpersonates(r: Role)
    ensures UsersImpersonate in PermissionsForRole(r) <==> r.SuperAdmin?
  {
    if r.SuperAdmin? {
      EverythingIsListed(UsersImpersonate);
    } else if r.ReadOnlyAdmin? {
      ImpersonationIsNotReading();
    }
  }

  /** Among assigned accounts only super admins can become another user. */
  lemma WhoImpersonates(roles: seq<Role>)
    ensures UsersImpersonate in Effective(roles) <==> roles == [] || SuperAdmin in roles
  {
    EffectiveIsTheUnion(roles, UsersImpersonate);
    forall r | r in roles ensures UsersImpersonate in PermissionsForRole(r) <==> r.SuperAdmin? {
      OnlySuperAdminImpersonates(r);
    }
  }
}
