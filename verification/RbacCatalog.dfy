/** The built-in roles and permissions of scoped authorization, and the domain that
    decides which scopes a permission is honoured on. */
module RbacCatalog {

  datatype Perm =
    | AuditRead | BeaconRead | BeaconWrite | ConsoleRunner | DashboardProbe | EventRead | FileGit | FileRead
    | FileSync | FileWrite | GrantAdmin | GrantDelegate | GroupRead | GroupWrite | JobBatch | JobKill | JobRead
    | JobRunChange | JobRunOrchestrate | JobRunRead | JobRunState | JobSave | KeyAccept | KeyDelete | KeyRead
    | MasterRead | MasterRollout | MasterWrite | MineRead | MinionOnboard | MinionRead | MinionRefresh
    | MinionRemove | PillarCapture | PillarRead | PillarSecretWrite | ReactorPersist | ReactorRead
    | ReactorWrite | ScheduleAllowChange | ScheduleAllowRead | ScheduleAllowState | ScheduleRead
    | ScheduleWrite | SettingsRead | SettingsRotateEauth | SettingsWrite | StateRead | StateWatch | UserAdmin
    | UserRead | OtherPerm(name: string)

  datatype Role =
    | Viewer | Operator | Admin | TeamViewer | TeamOperator | TeamState | SecretsReader | Scheduler
    | SecurityReader | Auditor | KeyCustodian | FileReader | FileEditor | TeamLead | OtherRole(name: string)

  predicate ViewerPerm(p: Perm) {
    p.AuditRead? || p.BeaconRead? || p.EventRead? || p.FileRead? || p.GroupRead? || p.JobRead? || p.KeyRead? ||
    p.MineRead? || p.MinionOnboard? || p.MinionRead? || p.PillarRead? || p.ReactorRead? || p.ScheduleRead? ||
    p.SettingsRead? || p.StateRead?
  }

  predicate OperatorDelta(p: Perm) {
    p.BeaconWrite? || p.ConsoleRunner? || p.DashboardProbe? || p.FileSync? || p.FileWrite? || p.GroupWrite? ||
    p.JobBatch? || p.JobKill? || p.JobRunChange? || p.JobRunOrchestrate? || p.JobRunRead? || p.JobRunState? ||
    p.JobSave? || p.KeyAccept? || p.KeyDelete? || p.MinionRefresh? || p.MinionRemove? || p.PillarCapture? ||
    p.PillarSecretWrite? || p.ReactorWrite? || p.ScheduleWrite? || p.StateWatch?
  }

  predicate AdminDelta(p: Perm) {
    p.FileGit? || p.GrantAdmin? || p.MasterRead? || p.MasterRollout? || p.MasterWrite? || p.ReactorPersist? ||
    p.SettingsRotateEauth? || p.SettingsWrite? || p.UserAdmin? || p.UserRead?
  }

  predicate TeamViewerPerm(p: Perm) {
    p.BeaconRead? || p.GroupRead? || p.JobRead? || p.KeyRead? || p.MinionRead? || p.ScheduleRead? ||
    p.StateRead?
  }

  predicate TeamOperatorDelta(p: Perm) {
    p.JobBatch? || p.JobKill? || p.JobRunChange? || p.JobRunRead? || p.JobSave? || p.MinionRefresh? ||
    p.PillarSecretWrite?
  }

  /** perm in ROLE_PERMS.get(role, {}) */
  predicate Carries(role: Role, p: Perm) {
    match role
    case Viewer => ViewerPerm(p)
    case Operator => ViewerPerm(p) || OperatorDelta(p)
    case Admin => ViewerPerm(p) || OperatorDelta(p) || AdminDelta(p)
    case TeamViewer => TeamViewerPerm(p)
    case TeamOperator => TeamViewerPerm(p) || TeamOperatorDelta(p)
    case TeamState => TeamViewerPerm(p) || TeamOperatorDelta(p) || p.JobRunState?
    case SecretsReader =>
      p.MineRead? || p.MinionRead? || p.PillarRead?
    case Scheduler =>
      p.BeaconRead? || p.BeaconWrite? || p.MinionRead? || p.ScheduleAllowChange? || p.ScheduleAllowRead? ||
      p.ScheduleAllowState? || p.ScheduleRead? || p.ScheduleWrite?
    case SecurityReader =>
      p.AuditRead? || p.BeaconRead? || p.FileRead? || p.GroupRead? || p.JobRead? || p.KeyRead? ||
      p.MinionRead? || p.ReactorRead? || p.ScheduleRead? || p.StateRead?
    case Auditor =>
      p.AuditRead? || p.GroupRead? || p.JobRead? || p.KeyRead? || p.MinionRead? || p.ScheduleRead? ||
      p.SettingsRead? || p.StateRead?
    case KeyCustodian =>
      p.KeyAccept? || p.KeyDelete? || p.KeyRead? || p.MinionOnboard? || p.MinionRead? || p.MinionRemove?
    case FileReader =>
      p.FileRead?
    case FileEditor =>
      p.FileRead? || p.FileWrite?
    case TeamLead =>
      TeamViewerPerm(p) || TeamOperatorDelta(p) || p.JobRunState? || p.GrantDelegate? || p.GroupWrite?
      || p.UserRead? || p.AuditRead?
    case OtherRole(_) => false
  }

  /** FLEET_ONLY_ROLES: honoured on the fleet scope only. */
  predicate FleetOnly(role: Role) {
    role.Admin? || role.Auditor? || role.KeyCustodian? || role.Operator? || role.SecurityReader? || role.Viewer?
  }

  predicate IsLadder(role: Role) {
    role.Viewer? || role.Operator? || role.Admin?
  }

  /** perm in _ALL_PERMS */
  predicate KnownPerm(p: Perm) {
    !p.OtherPerm?
  }

  /** _ALL_PERMS */
  const ALL_PERMS: set<Perm> := {
    AuditRead, BeaconRead, BeaconWrite, ConsoleRunner, DashboardProbe, EventRead, FileGit, FileRead, FileSync,
    FileWrite, GrantAdmin, GrantDelegate, GroupRead, GroupWrite, JobBatch, JobKill, JobRead, JobRunChange,
    JobRunOrchestrate, JobRunRead, JobRunState, JobSave, KeyAccept, KeyDelete, KeyRead, MasterRead,
    MasterRollout, MasterWrite, MineRead, MinionOnboard, MinionRead, MinionRefresh, MinionRemove,
    PillarCapture, PillarRead, PillarSecretWrite, ReactorPersist, ReactorRead, ReactorWrite,
    ScheduleAllowChange, ScheduleAllowRead, ScheduleAllowState, ScheduleRead, ScheduleWrite, SettingsRead,
    SettingsRotateEauth, SettingsWrite, StateRead, StateWatch, UserAdmin, UserRead
  }

  lemma KnownAreListed(p: Perm)
    ensures KnownPerm(p) ==> p in ALL_PERMS
  {
    match p
    case AuditRead => case BeaconRead => case BeaconWrite => case ConsoleRunner => case DashboardProbe =>
    case EventRead => case FileGit => case FileRead => case FileSync => case FileWrite => case GrantAdmin =>
    case GrantDelegate => case GroupRead => case GroupWrite => case JobBatch => case JobKill => case JobRead =>
    case JobRunChange => case JobRunOrchestrate => case JobRunRead => case JobRunState => case JobSave =>
    case KeyAccept => case KeyDelete => case KeyRead => case MasterRead => case MasterRollout =>
    case MasterWrite => case MineRead => case MinionOnboard => case MinionRead => case MinionRefresh =>
    case MinionRemove => case PillarCapture => case PillarRead => case PillarSecretWrite =>
    case ReactorPersist => case ReactorRead => case ReactorWrite => case ScheduleAllowChange =>
    case ScheduleAllowRead => case ScheduleAllowState => case ScheduleRead => case ScheduleWrite =>
    case SettingsRead => case SettingsRotateEauth => case SettingsWrite => case StateRead => case StateWatch =>
    case UserAdmin => case UserRead => case OtherPerm(_) =>
  }

  datatype Domain = FleetDomain | PrefixDomain | DelegateDomain | MinionDomain

  predicate FleetDomainPerm(p: Perm) {
    p.ConsoleRunner? || p.DashboardProbe? || p.EventRead? || p.FileGit? || p.FileSync? || p.GrantAdmin? ||
    p.JobRunOrchestrate? || p.KeyAccept? || p.MasterRead? || p.MasterRollout? || p.MasterWrite? ||
    p.MinionOnboard? || p.PillarSecretWrite? || p.ReactorPersist? || p.ReactorRead? || p.ReactorWrite? ||
    p.SettingsRead? || p.SettingsRotateEauth? || p.SettingsWrite? || p.StateWatch? || p.UserAdmin?
  }

  function DomainOf(p: Perm): Domain {
    if FleetDomainPerm(p) then FleetDomain
    else if p.FileRead? || p.FileWrite? then PrefixDomain
    else if p.UserRead? || p.AuditRead? then DelegateDomain
    else MinionDomain
  }

  /** The known permissions are the union of the built-in roles. */
  lemma KnownIsUnion(p: Perm)
    ensures KnownPerm(p) <==> exists r :: Carries(r, p)
  {
    if KnownPerm(p) {
      assert Carries(Admin, p) || Carries(Scheduler, p) || Carries(TeamLead, p);
    }
  }

  /** Whoever may write files may read them: the reason one permission decides
      what the file tree shows. */
  lemma WritersRead(role: Role)
    ensures Carries(role, FileWrite) ==> Carries(role, FileRead)
  {
  }
}
