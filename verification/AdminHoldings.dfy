/** Who holds what, permission by permission, and what an account may do. */
module AdminHoldings {
  import opened AdminRbac
  import opened AdminRbacTheorems

  /** The permissions that do nothing but read. */
  predicate JustReads(p: Permission) {
    || p.DashboardRead? || p.UsersRead? || p.CompaniesRead? || p.RecruitersRead? || p.JobsRead?
    || p.ApplicationsRead? || p.ReportsRead? || p.SystemJobsRead? || p.ObservabilityRead? || p.AnalyticsRead?
    || p.AuditLogsRead? || p.SecurityEventsRead? || p.NotificationsRead? || p.SupportRead? || p.ComplianceRead?
    || p.BillingRead? || p.BackupsRead? || p.DataOpsRead? || p.FreelancersRead? || p.FreelanceAdminRead?
  }

  /** The desks that hold a permission, besides the three roles defined by a rule. */
  predicate DeskHolds(r: Role, p: Permission) {
    || (p.DashboardRead? && Known(r) && !r.SuperAdmin? && !r.PlatformAdmin? && !r.ReadOnlyAdmin?)
    || ((r.UserAdmin? || r.TrustSafetyAdmin? || r.SupportAdmin?) && p.UsersRead?)
    || (r.UserAdmin? && (p.UsersUpdate? || p.RecruitersRead?))
    || ((r.UserAdmin? || r.TrustSafetyAdmin?)
        && (p.UsersSuspend? || p.FreelancersRead? || p.FreelancersManage? || p.FreelanceAdminRead?))
    || ((r.UserAdmin? || r.VerificationAdmin?) && p.CompaniesRead?)
    || (r.VerificationAdmin? && (p.CompaniesVerify? || p.CompaniesSuspend? || p.VerificationsReview?))
    || (r.ContentModerator? && (p.JobsRead? || p.JobsModerate? || p.ApplicationsRead?))
    || ((r.TrustSafetyAdmin? || r.ContentModerator?)
        && (p.CommunitiesModerate? || p.ReportsResolve? || p.ModerationReview?))
    || ((r.TrustSafetyAdmin? || r.ContentModerator? || r.SupportAdmin?) && p.ReportsRead?)
    || (r.OperationsAdmin? && (p.SystemJobsRead? || p.SystemJobsRetry? || p.IncidentsManage? || p.MaintenanceManage?
        || p.NotificationsManage? || p.BackupsRead? || p.BackupsManage? || p.DataOpsRead? || p.DataOpsManage?))
    || ((r.AnalyticsAdmin? || r.OperationsAdmin?) && p.ObservabilityRead?)
    || (r.AnalyticsAdmin? && (p.AnalyticsRead? || p.AuditLogsRead? || p.SecurityEventsRead? || p.BillingRead?
        || p.AnalyticsManage?))
    || ((r.SupportAdmin? || r.OperationsAdmin?) && p.NotificationsRead?)
    || (r.SupportAdmin? && (p.SupportRead? || p.SupportManage?))
    || (r.TrustSafetyAdmin? && p.FreelanceAdminWrite?)
  }

  /** Who holds a permission: super admins; platform admins, but for two of them; its desks; and the
    read-only role if it does nothing but read. */
  predicate Holds(r: Role, p: Permission) {
    match r
    case SuperAdmin => true
    case PlatformAdmin => p != RolesManage && p != UsersImpersonate
    case ReadOnlyAdmin => JustReads(p)
    case _ => DeskHolds(r, p)
  }

  lemma EndsInRead(code: string)
    requires |code| > 5 && code[|code| - 5] == '.' && code[|code| - 4] == 'r' && code[|code| - 3] == 'e'
    requires code[|code| - 2] == 'a' && code[|code| - 1] == 'd'
    ensures code[|code| - 5..] == ".read"
  {
  }

  lemma DiffersAt(code: string, i: nat)
    requires |code| > 5 && i < 5 && code[|code| - 5 + i] != ".read"[i]
    ensures code[|code| - 5..] != ".read"
  {
    assert code[|code| - 5..][i] == code[|code| - 5 + i];
  }

  // The codes, a few at a time: how each one ends.

  lemma ReadCodes1()
    ensures IsRead(DashboardRead) && IsRead(UsersRead) && !IsRead(UsersUpdate)
  {
    EndsInRead(Code(DashboardRead));
    EndsInRead(Code(UsersRead));
    DiffersAt(Code(UsersUpdate), 4);
  }

  lemma ReadCodes2()
    ensures !IsRead(UsersSuspend) && !IsRead(UsersImpersonate) && IsRead(CompaniesRead)
  {
    DiffersAt(Code(UsersSuspend), 3);
    DiffersAt(Code(UsersImpersonate), 4);
    EndsInRead(Code(CompaniesRead));
  }

  lemma ReadCodes3()
    ensures !IsRead(CompaniesVerify) && !IsRead(CompaniesSuspend) && IsRead(RecruitersRead)
  {
    DiffersAt(Code(CompaniesVerify), 4);
    DiffersAt(Code(CompaniesSuspend), 3);
    EndsInRead(Code(RecruitersRead));
  }

  lemma ReadCodes4()
    ensures IsRead(JobsRead) && !IsRead(JobsModerate) && IsRead(ApplicationsRead)
  {
    EndsInRead(Code(JobsRead));
    DiffersAt(Code(JobsModerate), 4);
    EndsInRead(Code(ApplicationsRead));
  }

  lemma ReadCodes5()
    ensures !IsRead(CommunitiesModerate) && IsRead(ReportsRead) && !IsRead(ReportsResolve)
  {
    DiffersAt(Code(CommunitiesModerate), 4);
    EndsInRead(Code(ReportsRead));
    DiffersAt(Code(ReportsResolve), 4);
  }

  lemma ReadCodes6()
    ensures !IsRead(ModerationReview) && !IsRead(VerificationsReview) && IsRead(SystemJobsRead)
  {
    DiffersAt(Code(ModerationReview), 4);
    DiffersAt(Code(VerificationsReview), 4);
    EndsInRead(Code(SystemJobsRead));
  }

  lemma ReadCodes7()
    ensures !IsRead(SystemJobsRetry) && !IsRead(IncidentsManage) && !IsRead(MaintenanceManage)
  {
    DiffersAt(Code(SystemJobsRetry), 4);
    DiffersAt(Code(IncidentsManage), 4);
    DiffersAt(Code(MaintenanceManage), 4);
  }

  lemma ReadCodes8()
    ensures IsRead(ObservabilityRead) && !IsRead(SystemSettings) && !IsRead(FeatureFlags)
  {
    EndsInRead(Code(ObservabilityRead));
    DiffersAt(Code(SystemSettings), 4);
    DiffersAt(Code(FeatureFlags), 4);
  }

  lemma ReadCodes9()
    ensures !IsRead(Announcements) && IsRead(AnalyticsRead) && IsRead(AuditLogsRead)
  {
    DiffersAt(Code(Announcements), 4);
    EndsInRead(Code(AnalyticsRead));
    EndsInRead(Code(AuditLogsRead));
  }

  lemma ReadCodes10()
    ensures IsRead(SecurityEventsRead) && !IsRead(RolesManage) && IsRead(NotificationsRead)
  {
    EndsInRead(Code(SecurityEventsRead));
    DiffersAt(Code(RolesManage), 4);
    EndsInRead(Code(NotificationsRead));
  }

  lemma ReadCodes11()
    ensures !IsRead(NotificationsManage) && IsRead(SupportRead) && !IsRead(SupportManage)
  {
    DiffersAt(Code(NotificationsManage), 4);
    EndsInRead(Code(SupportRead));
    DiffersAt(Code(SupportManage), 4);
  }

  lemma ReadCodes12()
    ensures IsRead(ComplianceRead) && !IsRead(ComplianceManage) && IsRead(BillingRead)
  {
    EndsInRead(Code(ComplianceRead));
    DiffersAt(Code(ComplianceManage), 4);
    EndsInRead(Code(BillingRead));
  }

  lemma ReadCodes13()
    ensures IsRead(BackupsRead) && !IsRead(BackupsManage) && IsRead(DataOpsRead)
  {
    EndsInRead(Code(BackupsRead));
    DiffersAt(Code(BackupsManage), 4);
    EndsInRead(Code(DataOpsRead));
  }

  lemma ReadCodes14()
    ensures !IsRead(DataOpsManage) && !IsRead(SecurityManage) && !IsRead(AnalyticsManage)
  {
    DiffersAt(Code(DataOpsManage), 4);
    DiffersAt(Code(SecurityManage), 4);
    DiffersAt(Code(AnalyticsManage), 4);
  }

  lemma ReadCodes15()
    ensures IsRead(FreelancersRead) && !IsRead(FreelancersManage) && IsRead(FreelanceAdminRead)
  {
    EndsInRead(Code(FreelancersRead));
    DiffersAt(Code(FreelancersManage), 4);
    EndsInRead(Code(FreelanceAdminRead));
  }

  lemma ReadCodes16()
    ensures !IsRead(FreelanceAdminWrite)
  {
    DiffersAt(Code(FreelanceAdminWrite), 4);
  }

  lemma ReadersRead(p: Permission)
    requires JustReads(p)
    ensures IsRead(p)
  {
    match p {
      case DashboardRead | UsersRead => ReadCodes1();
      case CompaniesRead => ReadCodes2();
      case RecruitersRead => ReadCodes3();
      case JobsRead | ApplicationsRead => ReadCodes4();
      case ReportsRead => ReadCodes5();
      case SystemJobsRead => ReadCodes6();
      case ObservabilityRead => ReadCodes8();
      case AnalyticsRead | AuditLogsRead => ReadCodes9();
      case SecurityEventsRead | NotificationsRead => ReadCodes10();
      case SupportRead => ReadCodes11();
      case ComplianceRead | BillingRead => ReadCodes12();
      case BackupsRead | DataOpsRead => ReadCodes13();
      case FreelancersRead | FreelanceAdminRead => ReadCodes15();
      case _ =>
    }
  }

  lemma OthersDoNotRead(p: Permission)
    requires !JustReads(p)
    ensures !IsRead(p)
  {
    match p {
      case UsersUpdate => ReadCodes1();
      case UsersSuspend | UsersImpersonate => ReadCodes2();
      case CompaniesVerify | CompaniesSuspend => ReadCodes3();
      case JobsModerate => ReadCodes4();
      case CommunitiesModerate | ReportsResolve => ReadCodes5();
      case ModerationReview | VerificationsReview => ReadCodes6();
      case SystemJobsRetry | IncidentsManage | MaintenanceManage => ReadCodes7();
      case SystemSettings | FeatureFlags => ReadCodes8();
      case Announcements => ReadCodes9();
      case RolesManage => ReadCodes10();
      case NotificationsManage | SupportManage => ReadCodes11();
      case ComplianceManage => ReadCodes12();
      case BackupsManage => ReadCodes13();
      case DataOpsManage | SecurityManage | AnalyticsManage => ReadCodes14();
      case FreelancersManage => ReadCodes15();
      case FreelanceAdminWrite => ReadCodes16();
      case _ =>
    }
  }

  /** The codes that end in ".read" are those of the permissions that do nothing but read. */
  lemma ReadsAreReads(p: Permission)
    ensures IsRead(p) <==> JustReads(p)
  {
    if JustReads(p) {
      ReadersRead(p);
    } else {
      OthersDoNotRead(p);
    }
  }

  lemma ReadOnlyHolds(p: Permission)
    ensures p in PermissionsForRole(ReadOnlyAdmin) <==> JustReads(p)
  {
    EverythingIsListed(p);
    ReadsAreReads(p);
  }

  // Each desk: what it carries is what it holds.

  lemma UserAdminCarries(p: Permission)
    requires p in PermissionsForRole(UserAdmin)
    ensures DeskHolds(UserAdmin, p)
  {
  }

  lemma UserAdminHolds(p: Permission)
    requires DeskHolds(UserAdmin, p)
    ensures p in PermissionsForRole(UserAdmin)
  {
  }

  lemma TrustSafetyAdminCarries(p: Permission)
    requires p in PermissionsForRole(TrustSafetyAdmin)
    ensures DeskHolds(TrustSafetyAdmin, p)
  {
  }

  lemma TrustSafetyAdminHolds(p: Permission)
    requires DeskHolds(TrustSafetyAdmin, p)
    ensures p in PermissionsForRole(TrustSafetyAdmin)
  {
  }

  lemma ContentModeratorCarries(p: Permission)
    requires p in PermissionsForRole(ContentModerator)
    ensures DeskHolds(ContentModerator, p)
  {
  }

  lemma ContentModeratorHolds(p: Permission)
    requires DeskHolds(ContentModerator, p)
    ensures p in PermissionsForRole(ContentModerator)
  {
  }

  lemma VerificationAdminCarries(p: Permission)
    requires p in PermissionsForRole(VerificationAdmin)
    ensures DeskHolds(VerificationAdmin, p)
  {
  }

  lemma VerificationAdminHolds(p: Permission)
    requires DeskHolds(VerificationAdmin, p)
    ensures p in PermissionsForRole(VerificationAdmin)
  {
  }

  lemma SupportAdminCarries(p: Permission)
    requires p in PermissionsForRole(SupportAdmin)
    ensures DeskHolds(SupportAdmin, p)
  {
  }

  lemma SupportAdminHolds(p: Permission)
    requires DeskHolds(SupportAdmin, p)
    ensures p in PermissionsForRole(SupportAdmin)
  {
  }

  lemma AnalyticsAdminCarries(p: Permission)
    requires p in PermissionsForRole(AnalyticsAdmin)
    ensures DeskHolds(AnalyticsAdmin, p)
  {
  }

  lemma AnalyticsAdminHolds(p: Permission)
    requires DeskHolds(AnalyticsAdmin, p)
    ensures p in PermissionsForRole(AnalyticsAdmin)
  {
  }

  lemma OperationsAdminCarries(p: Permission)
    requires p in PermissionsForRole(OperationsAdmin)
    ensures DeskHolds(OperationsAdmin, p)
  {
  }

  lemma OperationsAdminHolds(p: Permission)
    requires DeskHolds(OperationsAdmin, p)
    ensures p in PermissionsForRole(OperationsAdmin)
  {
  }

  lemma DeskCarries(r: Role, p: Permission)
    requires !r.SuperAdmin? && !r.PlatformAdmin? && !r.ReadOnlyAdmin?
    ensures p in PermissionsForRole(r) ==> DeskHolds(r, p)
  {
    if p in PermissionsForRole(r) {
      match r {
        case UserAdmin => UserAdminCarries(p);
        case TrustSafetyAdmin => TrustSafetyAdminCarries(p);
        case ContentModerator => ContentModeratorCarries(p);
        case VerificationAdmin => VerificationAdminCarries(p);
        case SupportAdmin => SupportAdminCarries(p);
        case AnalyticsAdmin => AnalyticsAdminCarries(p);
        case OperationsAdmin => OperationsAdminCarries(p);
        case _ =>
      }
    }
  }

  lemma DeskGives(r: Role, p: Permission)
    requires DeskHolds(r, p)
    ensures p in PermissionsForRole(r)
  {
    match r {
      case UserAdmin => UserAdminHolds(p);
      case TrustSafetyAdmin => TrustSafetyAdminHolds(p);
      case ContentModerator => ContentModeratorHolds(p);
      case VerificationAdmin => VerificationAdminHolds(p);
      case SupportAdmin => SupportAdminHolds(p);
      case AnalyticsAdmin => AnalyticsAdminHolds(p);
      case OperationsAdmin => OperationsAdminHolds(p);
      case _ =>
    }
  }

  /** Every role against every permission. */
  lemma WhoHolds(r: Role, p: Permission)
    ensures p in PermissionsForRole(r) <==> Holds(r, p)
  {
    match r {
      case SuperAdmin => EverythingIsListed(p);
      case PlatformAdmin => PlatformAdminLacksTwo(p);
      case ReadOnlyAdmin => ReadOnlyHolds(p);
      case _ =>
        DeskCarries(r, p);
        if DeskHolds(r, p) {
          DeskGives(r, p);
        }
    }
  }

  /** An account may do what one of its roles holds; without an assignment, everything. */
  lemma WhoMay(roles: seq<Role>, p: Permission)
    ensures p in Effective(roles) <==> roles == [] || exists r :: r in roles && Holds(r, p)
  {
    EffectiveIsTheUnion(roles, p);
    forall r | r in roles ensures p in PermissionsForRole(r) <==> Holds(r, p) {
      WhoHolds(r, p);
    }
  }

  /** An unknown role carries nothing, and next to other roles it changes nothing. */
  lemma UnknownRoleCarriesNothing(roles: seq<Role>, code: string, p: Permission)
    ensures p !in Effective([UnknownRole(code)])
    ensures roles != [] ==> (p in Effective(roles + [UnknownRole(code)]) <==> p in Effective(roles))
  {
    WhoMay([UnknownRole(code)], p);
    WhoMay(roles, p);
    WhoMay(roles + [UnknownRole(code)], p);
  }

  /** Only accounts without an assignment and super admins may do everything. */
  lemma WhoMayDoEverything(roles: seq<Role>)
    ensures (forall p :: p in Effective(roles)) <==> roles == [] || SuperAdmin in roles
  {
    WhoManagesRoles(roles);
    forall p ensures roles == [] || SuperAdmin in roles ==> p in Effective(roles) {
      WhoMay(roles, p);
    }
  }

  // ----- the derived lists -----

  /** In the order of the list of all permissions, each at most once. */
  ghost predicate Ordered(ps: seq<Permission>) {
    forall i, j :: 0 <= i < j < |ps| ==> ps[i].Position() < ps[j].Position()
  }

  lemma {:induction false} KeepStaysOrdered(ps: seq<Permission>, wanted: Permission -> bool)
    requires Ordered(ps)
    ensures Ordered(Keep(ps, wanted))
    ensures forall p :: p in Keep(ps, wanted) ==> p in ps
    decreases |ps|
  {
    if ps != [] {
      var front, last := ps[..|ps| - 1], ps[|ps| - 1];
      KeepStaysOrdered(front, wanted);
      forall p | p in front ensures p.Position() < last.Position() {
        var i :| 0 <= i < |front| && front[i] == p;
        assert ps[i] == p;
      }
      OneMoreOrdered(Keep(front, wanted), last);
    }
  }

  lemma OneMoreOrdered(ps: seq<Permission>, last: Permission)
    requires Ordered(ps) && forall p :: p in ps ==> p.Position() < last.Position()
    ensures Ordered(ps + [last])
  {
  }

  /** The three lists that are not written out keep the order of the list of all permissions. */
  lemma DerivedListsAreOrdered(r: Role)
    requires r.SuperAdmin? || r.PlatformAdmin? || r.ReadOnlyAdmin?
    ensures Ordered(PermissionsForRole(r))
  {
    forall i: nat, j: nat | i < j < |AllPermissions()|
      ensures AllPermissions()[i].Position() < AllPermissions()[j].Position()
    {
      ListedAtPosition(i);
      ListedAtPosition(j);
    }
    KeepStaysOrdered(AllPermissions(), p => p !in [RolesManage, UsersImpersonate]);
    KeepStaysOrdered(AllPermissions(), IsRead);
  }
}
