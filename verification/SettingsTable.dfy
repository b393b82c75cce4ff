/** The settings that the console can save: their names in the environment, their defaults, and how
    each one is read back, row by row as in Init, keyToEnvVar, LoadFromDB and ToSettingsMap. Long texts
    are written as sums of short ones, which the verifier handles better. */
module SettingsTable {
  import opened Text

  /** The keys of the settings table, grouped as the fields of Config are. */
  datatype Key =
    | Image(kimage: ImageKey)
    | Disk(kdisk: DiskKey)
    | Network(knetwork: NetworkKey)
    | Ovs(kovs: OvsKey)
    | Port(kport: PortKey)
    | Probe(kprobe: ProbeKey)
    | Vpc(kvpc: VpcKey)
    | Panel(kpanel: PanelKey)
    | Maintenance(kmaintenance: MaintenanceKey)
    | Mail(kmail: MailKey)
    | Memory(kmemory: MemoryKey)
    | Reserve(kreserve: ReserveKey)
    | Threshold(kthreshold: ThresholdKey)
    | Health(khealth: HealthKey)
    | Lxc(klxc: LxcKey)
    | Log(klog: LogKey)
    | Limit(klimit: LimitKey)
    | Session(ksession: SessionKey)
    | Feature(kfeature: FeatureKey)
    | Host(khost: HostKey)

  datatype ImageKey = TemplateDir | TemplateImportDir | TemplateExportDir | CloneDir
  datatype DiskKey = IsoDir | RescueIso | DefaultDiskIopsTotal | DefaultDiskIopsRead |
    DefaultDiskIopsWrite
  datatype NetworkKey = DefaultNetwork | NetworkBackend | SubnetPrefix | NetworkWaitOnlineDisabled
  datatype OvsKey = OvsBridge | OvsUplink | OvsDhcpStart | OvsDhcpEnd
  datatype PortKey = AutoPortStart | AutoPortEnd | HostIp | ExternalNic |
    MaxBurstInbound | MaxBurstOutbound
  datatype ProbeKey = PortForwardHttpProbeEnabled | PortForwardHttpProbeIntervalMinutes |
    PortForwardHttpProbeTimeoutSeconds
  datatype VpcKey = VpcSubnetPrefix | VpcVlanStart | VpcVlanEnd | VpcDns |
    VpcAclTable
  datatype PanelKey = SpiceEnabledByDefault | PublicBaseUrl | SiteTitle | DevelopmentMode
  datatype MaintenanceKey = MaintenanceMode | MaintenanceServiceUnits | MaintenanceVmShutdownTimeoutSeconds
  datatype MailKey = SmtpHost | SmtpPort | SmtpUsername | SmtpPasswordEnc |
    SmtpFromName | SmtpFromAddress | SmtpSecurity | SmtpTimeoutSeconds
  datatype MemoryKey = DynamicMemorySchedulerEnabled | DynamicMemoryIntervalSeconds |
    DynamicMemoryCooldownSeconds | DynamicMemoryObservationHours
  datatype ReserveKey = DynamicMemoryHostReserveMb | DynamicMemoryHostReservePercent
  datatype ThresholdKey = DynamicMemoryIncreaseThresholdPercent | DynamicMemoryReclaimThresholdPercent
  datatype HealthKey = LxcHealthCheckEnabled | LxcHealthCheckIntervalSeconds | LxcHealthCheckConcurrency
  datatype LxcKey = LxcLxcPath | LxcTemplateImportDir | LxcDefaultBacking
  datatype LogKey = LogDir | LogLevel | LogMaxDays | LogCompress |
    LogConsole | LogConsoleTypes | LogConsoleLevel | LogMaxSizeMb | LogMaxBackups
  datatype LimitKey = SchedulerEventRetentionHours | BatchCloneMaxConcurrency | ChunkUploadConcurrency
  datatype SessionKey = SessionFingerprintEnabled | PasswordBreachCheckEnabled
  datatype FeatureKey = RequestFilterEnabled | HardwarePassthroughEnabled | ApiMaxBodySizeMb | ErrorDetailInResponse
  datatype HostKey = JwtSecretRotateHours | UseGoLibvirt

  datatype Value = Str(s: string) | Int(n: int) | Flag(b: bool)

  /** How LoadFromDB turns a stored text into a field. */
  datatype DbRule = Assign | IfInt | IfPositive | IfNonNegative | IfBool | NotFalse | IsTrue

  /** The variable that keyToEnvVar names, and the field when Init finds nothing in it. */
  datatype Row = Row(env: Option<string>, default: Value)

  const IMAGE_DIR := "/var/lib/libvirt/" + "images"
  const TEMPLATE_DIR := IMAGE_DIR + "/templates"

  const DEFAULT_UNITS :=
    "kvm-console.service," + "libvirtd.service," + "libvirtd.socket," + "libvirtd-ro.socket," + "libvirtd-admin.socket"

  function RowOf(k: Key): Row {
    match k
    case Image(k) => ImageRow(k)
    case Disk(k) => DiskRow(k)
    case Network(k) => NetworkRow(k)
    case Ovs(k) => OvsRow(k)
    case Port(k) => PortRow(k)
    case Probe(k) => ProbeRow(k)
    case Vpc(k) => VpcRow(k)
    case Panel(k) => PanelRow(k)
    case Maintenance(k) => MaintenanceRow(k)
    case Mail(k) => MailRow(k)
    case Memory(k) => MemoryRow(k)
    case Reserve(k) => ReserveRow(k)
    case Threshold(k) => ThresholdRow(k)
    case Health(k) => HealthRow(k)
    case Lxc(k) => LxcRow(k)
    case Log(k) => LogRow(k)
    case Limit(k) => LimitRow(k)
    case Session(k) => SessionRow(k)
    case Feature(k) => FeatureRow(k)
    case Host(k) => HostRow(k)
  }

  function ImageRow(k: ImageKey): Row {
    match k
    case TemplateDir => Row(Some("KVM_TEMPLATE_DIR"), Str(TEMPLATE_DIR))
    case TemplateImportDir => Row(Some("KVM_TEMPLATE_" + "IMPORT_DIR"), Str(TEMPLATE_DIR + "/_imports"))
    case TemplateExportDir => Row(Some("KVM_TEMPLATE_" + "EXPORT_DIR"), Str(TEMPLATE_DIR + "/_exports"))
    case CloneDir => Row(Some("KVM_CLONE_DIR"), Str(IMAGE_DIR))
  }

  function DiskRow(k: DiskKey): Row {
    match k
    case IsoDir => Row(Some("KVM_ISO_DIR"), Str(IMAGE_DIR + "/ISO"))
    case RescueIso => Row(Some("KVM_RESCUE_ISO"), Str(""))
    case DefaultDiskIopsTotal => Row(Some("KVM_DEFAULT_" + "DISK_IOPS_TOTAL"), Int(0))
    case DefaultDiskIopsRead => Row(Some("KVM_DEFAULT_" + "DISK_IOPS_READ"), Int(0))
    case DefaultDiskIopsWrite => Row(Some("KVM_DEFAULT_" + "DISK_IOPS_WRITE"), Int(0))
  }

  function NetworkRow(k: NetworkKey): Row {
    match k
    case DefaultNetwork => Row(Some("KVM_DEFAULT_" + "NETWORK"), Str("default"))
    case NetworkBackend => Row(Some("KVM_NETWORK_" + "BACKEND"), Str("ovs"))
    case SubnetPrefix => Row(Some("KVM_SUBNET_PREFIX"), Str("192.168.122"))
    case NetworkWaitOnlineDisabled => Row(Some("KVM_NETWORK_" + "WAIT_ONLINE_" + "DISABLED"), Flag(false))
  }

  function OvsRow(k: OvsKey): Row {
    match k
    case OvsBridge => Row(Some("KVM_OVS_BRIDGE"), Str("br-ovs"))
    case OvsUplink => Row(Some("KVM_OVS_UPLINK"), Str(""))
    case OvsDhcpStart => Row(Some("KVM_OVS_DHCP_START"), Str(""))
    case OvsDhcpEnd => Row(Some("KVM_OVS_DHCP_END"), Str(""))
  }

  function PortRow(k: PortKey): Row {
    match k
    case AutoPortStart => Row(Some("KVM_AUTO_" + "PORT_START"), Int(10000))
    case AutoPortEnd => Row(Some("KVM_AUTO_PORT_END"), Int(20000))
    case HostIp => Row(Some("KVM_HOST_IP"), Str(""))
    case ExternalNic => Row(Some("KVM_EXTERNAL_NIC"), Str(""))
    case MaxBurstInbound => Row(Some("KVM_MAX_" + "BURST_INBOUND"), Int(0))
    case MaxBurstOutbound => Row(Some("KVM_MAX_" + "BURST_OUTBOUND"), Int(0))
  }

  function ProbeRow(k: ProbeKey): Row {
    match k
    case PortForwardHttpProbeEnabled => Row(Some("KVM_PORT_" + "FORWARD_HTTP_" + "PROBE_ENABLED"), Flag(true))
    case PortForwardHttpProbeIntervalMinutes =>
      Row(Some("KVM_PORT_FORWARD_" + "HTTP_PROBE_" + "INTERVAL_MINUTES"), Int(60))
    case PortForwardHttpProbeTimeoutSeconds =>
      Row(Some("KVM_PORT_FORWARD_" + "HTTP_PROBE_" + "TIMEOUT_SECONDS"), Int(3))
  }

  function VpcRow(k: VpcKey): Row {
    match k
    case VpcSubnetPrefix => Row(Some("KVM_VPC_" + "SUBNET_PREFIX"), Str("10.200"))
    case VpcVlanStart => Row(Some("KVM_VPC_VLAN_START"), Int(100))
    case VpcVlanEnd => Row(Some("KVM_VPC_VLAN_END"), Int(4094))
    case VpcDns => Row(Some("KVM_VPC_DNS"), Str("223.5.5.5,223.6.6.6"))
    case VpcAclTable => Row(Some("KVM_VPC_ACL_TABLE"), Str("kvm_console_vpc_acl"))
  }

  function PanelRow(k: PanelKey): Row {
    match k
    case SpiceEnabledByDefault => Row(None, Flag(false))
    case PublicBaseUrl => Row(Some("KVM_PUBLIC_" + "BASE_URL"), Str(""))
    case SiteTitle => Row(Some("KVM_SITE_TITLE"), Str("QVMConsole"))
    case DevelopmentMode => Row(Some("KVM_" + "DEVELOPMENT_MODE"), Flag(false))
  }

  function MaintenanceRow(k: MaintenanceKey): Row {
    match k
    case MaintenanceMode => Row(Some("KVM_" + "MAINTENANCE_MODE"), Flag(false))
    case MaintenanceServiceUnits => Row(Some("KVM_" + "MAINTENANCE_" + "SERVICE_UNITS"), Str(DEFAULT_UNITS))
    case MaintenanceVmShutdownTimeoutSeconds =>
      Row(Some("KVM_MAINTENANCE_" + "VM_SHUTDOWN_" + "TIMEOUT_SECONDS"), Int(40))
  }

  function MailRow(k: MailKey): Row {
    match k
    case SmtpHost => Row(Some("KVM_SMTP_HOST"), Str(""))
    case SmtpPort => Row(Some("KVM_SMTP_PORT"), Int(587))
    case SmtpUsername => Row(Some("KVM_SMTP_USERNAME"), Str(""))
    case SmtpPasswordEnc => Row(Some("KVM_SMTP_" + "PASSWORD_ENC"), Str(""))
    case SmtpFromName => Row(Some("KVM_SMTP_FROM_NAME"), Str("QVMConsole"))
    case SmtpFromAddress => Row(Some("KVM_SMTP_" + "FROM_ADDRESS"), Str(""))
    case SmtpSecurity => Row(Some("KVM_SMTP_SECURITY"), Str("starttls"))
    case SmtpTimeoutSeconds => Row(Some("KVM_SMTP_" + "TIMEOUT_SECONDS"), Int(15))
  }

  function MemoryRow(k: MemoryKey): Row {
    match k
    case DynamicMemorySchedulerEnabled => Row(Some("KVM_DYNAMIC_" + "MEMORY_" + "SCHEDULER_ENABLED"), Flag(true))
    case DynamicMemoryIntervalSeconds => Row(Some("KVM_DYNAMIC_" + "MEMORY_" + "INTERVAL_SECONDS"), Int(30))
    case DynamicMemoryCooldownSeconds => Row(Some("KVM_DYNAMIC_" + "MEMORY_" + "COOLDOWN_SECONDS"), Int(120))
    case DynamicMemoryObservationHours => Row(Some("KVM_DYNAMIC_" + "MEMORY_" + "OBSERVATION_HOURS"), Int(24))
  }

  function ReserveRow(k: ReserveKey): Row {
    match k
    case DynamicMemoryHostReserveMb => Row(Some("KVM_DYNAMIC_" + "MEMORY_HOST_" + "RESERVE_MB"), Int(2048))
    case DynamicMemoryHostReservePercent => Row(Some("KVM_DYNAMIC_" + "MEMORY_HOST_" + "RESERVE_PERCENT"), Int(20))
  }

  function ThresholdRow(k: ThresholdKey): Row {
    match k
    case DynamicMemoryIncreaseThresholdPercent =>
      Row(Some("KVM_DYNAMIC_" + "MEMORY_INCREASE_" + "THRESHOLD_PERCENT"), Int(15))
    case DynamicMemoryReclaimThresholdPercent =>
      Row(Some("KVM_DYNAMIC_" + "MEMORY_RECLAIM_" + "THRESHOLD_PERCENT"), Int(35))
  }

  function HealthRow(k: HealthKey): Row {
    match k
    case LxcHealthCheckEnabled => Row(Some("LXC_HEALTH_" + "CHECK_ENABLED"), Flag(true))
    case LxcHealthCheckIntervalSeconds => Row(Some("LXC_HEALTH_" + "CHECK_INTERVAL_" + "SECONDS"), Int(30))
    case LxcHealthCheckConcurrency => Row(Some("LXC_HEALTH_" + "CHECK_CONCURRENCY"), Int(10))
  }

  function LxcRow(k: LxcKey): Row {
    match k
    case LxcLxcPath => Row(Some("LXC_PATH"), Str("/var/lib/lxc"))
    case LxcTemplateImportDir => Row(Some("LXC_TEMPLATE_" + "IMPORT_DIR"), Str("/var/lib/lxc/_imports"))
    case LxcDefaultBacking => Row(Some("LXC_DEFAULT_" + "BACKING"), Str("dir"))
  }

  function LogRow(k: LogKey): Row {
    match k
    case LogDir => Row(Some("KVM_LOG_DIR"), Str("./log"))
    case LogLevel => Row(Some("KVM_LOG_LEVEL"), Str("info"))
    case LogMaxDays => Row(Some("KVM_LOG_MAX_DAYS"), Int(7))
    case LogCompress => Row(Some("KVM_LOG_COMPRESS"), Flag(true))
    case LogConsole => Row(Some("KVM_LOG_CONSOLE"), Flag(true))
    case LogConsoleTypes => Row(Some("KVM_LOG_" + "CONSOLE_TYPES"), Str("app,cmd,libvirt"))
    case LogConsoleLevel => Row(Some("KVM_LOG_" + "CONSOLE_LEVEL"), Str(""))
    case LogMaxSizeMb => Row(Some("KVM_LOG_" + "MAX_SIZE_MB"), Int(100))
    case LogMaxBackups => Row(Some("KVM_LOG_" + "MAX_BACKUPS"), Int(0))
  }

  function LimitRow(k: LimitKey): Row {
    match k
    case SchedulerEventRetentionHours => Row(Some("KVM_SCHEDULER_" + "EVENT_" + "RETENTION_HOURS"), Int(168))
    case BatchCloneMaxConcurrency => Row(Some("KVM_BATCH_" + "CLONE_MAX_" + "CONCURRENCY"), Int(10))
    case ChunkUploadConcurrency => Row(None, Int(3))
  }

  function SessionRow(k: SessionKey): Row {
    match k
    case SessionFingerprintEnabled => Row(Some("KVM_SESSION_" + "FINGERPRINT_" + "ENABLED"), Flag(true))
    case PasswordBreachCheckEnabled => Row(Some("KVM_PASSWORD_" + "BREACH_" + "CHECK_ENABLED"), Flag(true))
  }

  function FeatureRow(k: FeatureKey): Row {
    match k
    case RequestFilterEnabled => Row(Some("KVM_REQUEST_" + "FILTER_ENABLED"), Flag(true))
    case HardwarePassthroughEnabled => Row(Some("KVM_HARDWARE_" + "PASSTHROUGH_" + "ENABLED"), Flag(false))
    case ApiMaxBodySizeMb => Row(None, Int(2))
    case ErrorDetailInResponse => Row(None, Flag(false))
  }

  function HostRow(k: HostKey): Row {
    match k
    case JwtSecretRotateHours => Row(Some("KVM_JWT_SECRET_" + "ROTATE_HOURS"), Int(24))
    case UseGoLibvirt => Row(Some("KVM_USE_GO_LIBVIRT"), Flag(true))
  }

  /** The variable that SyncEnvFile writes and that overrides the database. */
  function EnvName(k: Key): Option<string> {
    RowOf(k).env
  }

  function Default(k: Key): Value {
    RowOf(k).default
  }

  /** The variable that Init reads for the field. */
  function InitName(k: Key): Option<string> {
    match k
    case Disk(DefaultDiskIopsTotal) => None
    case Disk(DefaultDiskIopsRead) => None
    case Disk(DefaultDiskIopsWrite) => None
    case Panel(SpiceEnabledByDefault) => Some("KVM_SPICE_ENABLED_BY_DEFAULT")
    case Limit(ChunkUploadConcurrency) => Some("KVM_CHUNK_UPLOAD_CONCURRENCY")
    case Feature(ApiMaxBodySizeMb) => Some("KVM_API_MAX_BODY_SIZE_MB")
    case Feature(ErrorDetailInResponse) => Some("KVM_ERROR_DETAIL_IN_RESPONSE")
    case _ => EnvName(k)
  }

  function Rule(k: Key): DbRule {
    match k
    case Limit(BatchCloneMaxConcurrency) => IfPositive
    case Limit(ChunkUploadConcurrency) => IfPositive
    case Session(SessionFingerprintEnabled) => NotFalse
    case Session(PasswordBreachCheckEnabled) => NotFalse
    case Feature(RequestFilterEnabled) => NotFalse
    case Feature(HardwarePassthroughEnabled) => IsTrue
    case Feature(ApiMaxBodySizeMb) => IfPositive
    case Feature(ErrorDetailInResponse) => IsTrue
    case Host(JwtSecretRotateHours) => IfNonNegative
    case _ =>
      match Default(k)
      case Str(_) => Assign
      case Int(_) => IfInt
      case Flag(_) => IfBool
  }

  /** The keys of ToSettingsMap. */
  predicate Exported(k: Key) {
    k != Feature(ApiMaxBodySizeMb) && k != Feature(ErrorDetailInResponse)
  }

  function Check(name: string, k: Key): Option<Key> {
    if EnvName(k) == Some(name) then Some(k) else None
  }

  /** The key of a variable name: a left inverse of EnvName, so that no two keys share a variable.
      It tells the names apart by length and a few letters, which takes one comparison a name where
      comparing all pairs would take thousands. */
  function KeyOf(name: string): Option<Key> {
    match |name|
    case 8 => Check(name, Lxc(LxcLxcPath))
    case 11 => if name[4] == 'I' then Check(name, Disk(IsoDir)) else
      if name[4] == 'H' then Check(name, Port(HostIp)) else if name[4] == 'V' then Check(name, Vpc(VpcDns)) else
      Check(name, Log(LogDir))
    case 13 => if name[9] == '_' then Check(name, Image(CloneDir)) else
      if name[9] == 'H' then Check(name, Mail(SmtpHost)) else if name[9] == 'P' then Check(name, Mail(SmtpPort)) else
      Check(name, Log(LogLevel))
    case 14 => if name[9] == 'R' then Check(name, Ovs(OvsBridge)) else
      if name[9] == 'P' then Check(name, Ovs(OvsUplink)) else if name[9] == 'E' then Check(name, Disk(RescueIso)) else
      Check(name, Panel(SiteTitle))
    case 15 => Check(name, Log(LogConsole))
    case 16 => if name[8] == 'L' then Check(name, Image(TemplateDir)) else
      if name[8] == 'D' then Check(name, Ovs(OvsDhcpEnd)) else
      if name[8] == 'R' then Check(name, Port(ExternalNic)) else
      if name[8] == 'V' then Check(name, Vpc(VpcVlanEnd)) else
      if name[8] == 'M' then Check(name, Log(LogMaxDays)) else Check(name, Log(LogCompress))
    case 17 => if name[9] == 'T' then Check(name, Network(SubnetPrefix)) else
      if name[9] == 'P' then Check(name, Port(AutoPortEnd)) else
      if name[9] == 'U' then Check(name, Mail(SmtpUsername)) else
      if name[9] == 'S' then Check(name, Mail(SmtpSecurity)) else Check(name, Vpc(VpcAclTable))
    case 18 => if name[4] == 'O' then Check(name, Ovs(OvsDhcpStart)) else
      if name[4] == 'S' then Check(name, Mail(SmtpFromName)) else
      if name[4] == 'V' then Check(name, Vpc(VpcVlanStart)) else Check(name, Host(UseGoLibvirt))
    case 19 => if name[18] == 'K' then Check(name, Network(DefaultNetwork)) else
      if name[18] == 'D' then Check(name, Network(NetworkBackend)) else
      if name[18] == 'T' then Check(name, Port(AutoPortStart)) else
      if name[18] == 'L' then Check(name, Panel(PublicBaseUrl)) else
      if name[18] == 'B' then Check(name, Log(LogMaxSizeMb)) else
      if name[18] == 'S' then Check(name, Log(LogMaxBackups)) else Check(name, Lxc(LxcDefaultBacking))
    case 20 => if name[4] == 'D' then Check(name, Panel(DevelopmentMode)) else
      Check(name, Maintenance(MaintenanceMode))
    case 21 => if name[4] == 'M' then Check(name, Port(MaxBurstInbound)) else
      if name[4] == 'V' then Check(name, Vpc(VpcSubnetPrefix)) else
      if name[4] == 'S' then (if name[9] == 'P' then Check(name, Mail(SmtpPasswordEnc)) else
      Check(name, Mail(SmtpFromAddress))) else (if name[16] == 'T' then Check(name, Log(LogConsoleTypes)) else
      Check(name, Log(LogConsoleLevel)))
    case 22 => Check(name, Port(MaxBurstOutbound))
    case 23 => if name[0] == 'L' then Check(name, Lxc(LxcTemplateImportDir)) else
      (if name[13] == 'I' then Check(name, Image(TemplateImportDir)) else Check(name, Image(TemplateExportDir)))
    case 24 => if name[0] == 'K' then Check(name, Mail(SmtpTimeoutSeconds)) else
      Check(name, Health(LxcHealthCheckEnabled))
    case 26 => if name[4] == 'D' then Check(name, Disk(DefaultDiskIopsRead)) else
      Check(name, Feature(RequestFilterEnabled))
    case 27 => if name[22] == 'T' then Check(name, Disk(DefaultDiskIopsTotal)) else
      if name[22] == 'W' then Check(name, Disk(DefaultDiskIopsWrite)) else Check(name, Host(JwtSecretRotateHours))
    case 28 => Check(name, Health(LxcHealthCheckConcurrency))
    case 29 => Check(name, Maintenance(MaintenanceServiceUnits))
    case 31 => if name[4] == 'B' then Check(name, Limit(BatchCloneMaxConcurrency)) else
      Check(name, Session(SessionFingerprintEnabled))
    case 32 => if name[4] == 'N' then Check(name, Network(NetworkWaitOnlineDisabled)) else
      Check(name, Feature(HardwarePassthroughEnabled))
    case 33 => if name[0] == 'L' then Check(name, Health(LxcHealthCheckIntervalSeconds)) else
      Check(name, Session(PasswordBreachCheckEnabled))
    case 34 => Check(name, Reserve(DynamicMemoryHostReserveMb))
    case 35 => if name[19] == 'I' then Check(name, Memory(DynamicMemoryIntervalSeconds)) else
      if name[19] == 'C' then Check(name, Memory(DynamicMemoryCooldownSeconds)) else
      if name[19] == '_' then Check(name, Limit(SchedulerEventRetentionHours)) else
      Check(name, Probe(PortForwardHttpProbeEnabled))
    case 36 => if name[19] == 'S' then Check(name, Memory(DynamicMemorySchedulerEnabled)) else
      Check(name, Memory(DynamicMemoryObservationHours))
    case 39 => Check(name, Reserve(DynamicMemoryHostReservePercent))
    case 43 => if name[4] == 'M' then Check(name, Maintenance(MaintenanceVmShutdownTimeoutSeconds)) else
      Check(name, Probe(PortForwardHttpProbeTimeoutSeconds))
    case 44 => if name[4] == 'D' then Check(name, Threshold(DynamicMemoryReclaimThresholdPercent)) else
      Check(name, Probe(PortForwardHttpProbeIntervalMinutes))
    case 45 => Check(name, Threshold(DynamicMemoryIncreaseThresholdPercent))
    case _ => None
  }

  ghost predicate PlainName(k: Key) {
    EnvName(k).Some? ==> NameChars(EnvName(k).value)
  }

  /** The default fits on one line, or is a small number. */
  predicate PlainDefault(k: Key) {
    match Default(k)
    case Str(s) => '\n' !in s
    case Int(n) => 0 <= n < 0x1_0000
    case Flag(_) => true
  }

  ghost predicate OwnName(k: Key) {
    EnvName(k).Some? ==> KeyOf(EnvName(k).value) == Some(k)
  }

  lemma {:induction false} ImageNames()
    ensures NameChars("KVM_TEMPLATE_DIR")
    ensures NameChars("KVM_TEMPLATE_" + "IMPORT_DIR")
    ensures NameChars("KVM_TEMPLATE_" + "EXPORT_DIR")
    ensures NameChars("KVM_CLONE_DIR")
  {
  }

  lemma {:induction false} ImageNamesPlain(k: ImageKey)
    ensures PlainName(Image(k))
  {
    ImageNames();
  }

  lemma {:induction false} ImageNamesOwn(k: ImageKey)
    ensures OwnName(Image(k))
  {
  }

  lemma {:induction false} DiskNames()
    ensures NameChars("KVM_ISO_DIR")
    ensures NameChars("KVM_RESCUE_ISO")
    ensures NameChars("KVM_DEFAULT_" + "DISK_IOPS_TOTAL")
    ensures NameChars("KVM_DEFAULT_" + "DISK_IOPS_READ")
    ensures NameChars("KVM_DEFAULT_" + "DISK_IOPS_WRITE")
  {
  }

  lemma {:induction false} DiskNamesPlain(k: DiskKey)
    ensures PlainName(Disk(k))
  {
    DiskNames();
  }

  lemma {:induction false} DiskNamesOwn(k: DiskKey)
    ensures OwnName(Disk(k))
  {
  }

  lemma {:induction false} NetworkNames()
    ensures NameChars("KVM_DEFAULT_" + "NETWORK")
    ensures NameChars("KVM_NETWORK_" + "BACKEND")
    ensures NameChars("KVM_SUBNET_PREFIX")
    ensures NameChars("KVM_NETWORK_" + "WAIT_ONLINE_" + "DISABLED")
  {
  }

  lemma {:induction false} NetworkNamesPlain(k: NetworkKey)
    ensures PlainName(Network(k))
  {
    NetworkNames();
  }

  lemma {:induction false} NetworkNamesOwn(k: NetworkKey)
    ensures OwnName(Network(k))
  {
  }

  lemma {:induction false} OvsNamesPlain(k: OvsKey)
    ensures PlainName(Ovs(k))
  {
  }

  lemma {:induction false} OvsNamesOwn(k: OvsKey)
    ensures OwnName(Ovs(k))
  {
  }

  lemma {:induction false} PortNames()
    ensures NameChars("KVM_AUTO_" + "PORT_START")
    ensures NameChars("KVM_AUTO_PORT_END")
    ensures NameChars("KVM_HOST_IP")
    ensures NameChars("KVM_EXTERNAL_NIC")
    ensures NameChars("KVM_MAX_" + "BURST_INBOUND")
    ensures NameChars("KVM_MAX_" + "BURST_OUTBOUND")
  {
  }

  lemma {:induction false} PortNamesPlain(k: PortKey)
    ensures PlainName(Port(k))
  {
    PortNames();
  }

  lemma {:induction false} PortNamesOwn(k: PortKey)
    ensures OwnName(Port(k))
  {
  }

  lemma {:induction false} ProbeNames()
    ensures NameChars("KVM_PORT_" + "FORWARD_HTTP_" + "PROBE_ENABLED")
    ensures NameChars("KVM_PORT_FORWARD_" + "HTTP_PROBE_" + "INTERVAL_MINUTES")
    ensures NameChars("KVM_PORT_FORWARD_" + "HTTP_PROBE_" + "TIMEOUT_SECONDS")
  {
  }

  lemma {:induction false} ProbeNamesPlain(k: ProbeKey)
    ensures PlainName(Probe(k))
  {
    ProbeNames();
  }

  lemma {:induction false} ProbeNamesOwn(k: ProbeKey)
    ensures OwnName(Probe(k))
  {
  }

  lemma {:induction false} VpcNames()
    ensures NameChars("KVM_VPC_" + "SUBNET_PREFIX")
    ensures NameChars("KVM_VPC_VLAN_START")
    ensures NameChars("KVM_VPC_VLAN_END")
    ensures NameChars("KVM_VPC_DNS")
    ensures NameChars("KVM_VPC_ACL_TABLE")
  {
  }

  lemma {:induction false} VpcNamesPlain(k: VpcKey)
    ensures PlainName(Vpc(k))
  {
    VpcNames();
  }

  lemma {:induction false} VpcNamesOwn(k: VpcKey)
    ensures OwnName(Vpc(k))
  {
  }

  lemma {:induction false} PanelNames()
    ensures NameChars("KVM_PUBLIC_" + "BASE_URL")
    ensures NameChars("KVM_SITE_TITLE")
    ensures NameChars("KVM_" + "DEVELOPMENT_MODE")
  {
  }

  lemma {:induction false} PanelNamesPlain(k: PanelKey)
    ensures PlainName(Panel(k))
  {
    PanelNames();
  }

  lemma {:induction false} PanelNamesOwn(k: PanelKey)
    ensures OwnName(Panel(k))
  {
  }

  lemma {:induction false} MaintenanceNames()
    ensures NameChars("KVM_" + "MAINTENANCE_MODE")
    ensures NameChars("KVM_" + "MAINTENANCE_" + "SERVICE_UNITS")
    ensures NameChars("KVM_MAINTENANCE_" + "VM_SHUTDOWN_" + "TIMEOUT_SECONDS")
  {
  }

  lemma {:induction false} MaintenanceNamesPlain(k: MaintenanceKey)
    ensures PlainName(Maintenance(k))
  {
    MaintenanceNames();
  }

  lemma {:induction false} MaintenanceNamesOwn(k: MaintenanceKey)
    ensures OwnName(Maintenance(k))
  {
  }

  lemma {:induction false} MailNames()
    ensures NameChars("KVM_SMTP_HOST")
    ensures NameChars("KVM_SMTP_PORT")
    ensures NameChars("KVM_SMTP_USERNAME")
    ensures NameChars("KVM_SMTP_" + "PASSWORD_ENC")
    ensures NameChars("KVM_SMTP_FROM_NAME")
    ensures NameChars("KVM_SMTP_" + "FROM_ADDRESS")
    ensures NameChars("KVM_SMTP_SECURITY")
    ensures NameChars("KVM_SMTP_" + "TIMEOUT_SECONDS")
  {
  }

  lemma {:induction false} MailNamesPlain(k: MailKey)
    ensures PlainName(Mail(k))
  {
    MailNames();
  }

  lemma {:induction false} MailNamesOwn(k: MailKey)
    ensures OwnName(Mail(k))
  {
  }

  lemma {:induction false} MemoryNames()
    ensures NameChars("KVM_DYNAMIC_" + "MEMORY_" + "SCHEDULER_ENABLED")
    ensures NameChars("KVM_DYNAMIC_" + "MEMORY_" + "INTERVAL_SECONDS")
    ensures NameChars("KVM_DYNAMIC_" + "MEMORY_" + "COOLDOWN_SECONDS")
    ensures NameChars("KVM_DYNAMIC_" + "MEMORY_" + "OBSERVATION_HOURS")
  {
  }

  lemma {:induction false} MemoryNamesPlain(k: MemoryKey)
    ensures PlainName(Memory(k))
  {
    MemoryNames();
  }

  lemma {:induction false} MemoryNamesOwn(k: MemoryKey)
    ensures OwnName(Memory(k))
  {
  }

  lemma {:induction false} ReserveNamesPlain(k: ReserveKey)
    ensures PlainName(Reserve(k))
  {
  }

  lemma {:induction false} ReserveNamesOwn(k: ReserveKey)
    ensures OwnName(Reserve(k))
  {
  }

  lemma {:induction false} ThresholdNames()
    ensures NameChars("KVM_DYNAMIC_" + "MEMORY_INCREASE_" + "THRESHOLD_PERCENT")
    ensures NameChars("KVM_DYNAMIC_" + "MEMORY_RECLAIM_" + "THRESHOLD_PERCENT")
  {
  }

  lemma {:induction false} ThresholdNamesPlain(k: ThresholdKey)
    ensures PlainName(Threshold(k))
  {
    ThresholdNames();
  }

  lemma {:induction false} ThresholdNamesOwn(k: ThresholdKey)
    ensures OwnName(Threshold(k))
  {
  }

  lemma {:induction false} HealthNames()
    ensures NameChars("LXC_HEALTH_" + "CHECK_ENABLED")
    ensures NameChars("LXC_HEALTH_" + "CHECK_INTERVAL_" + "SECONDS")
    ensures NameChars("LXC_HEALTH_" + "CHECK_CONCURRENCY")
  {
  }

  lemma {:induction false} HealthNamesPlain(k: HealthKey)
    ensures PlainName(Health(k))
  {
    HealthNames();
  }

  lemma {:induction false} HealthNamesOwn(k: HealthKey)
    ensures OwnName(Health(k))
  {
  }

  lemma {:induction false} LxcNamesPlain(k: LxcKey)
    ensures PlainName(Lxc(k))
  {
  }

  lemma {:induction false} LxcNamesOwn(k: LxcKey)
    ensures OwnName(Lxc(k))
  {
  }

  lemma {:induction false} LogNames()
    ensures NameChars("KVM_LOG_DIR")
    ensures NameChars("KVM_LOG_LEVEL")
    ensures NameChars("KVM_LOG_MAX_DAYS")
    ensures NameChars("KVM_LOG_COMPRESS")
    ensures NameChars("KVM_LOG_CONSOLE")
    ensures NameChars("KVM_LOG_" + "CONSOLE_TYPES")
    ensures NameChars("KVM_LOG_" + "CONSOLE_LEVEL")
    ensures NameChars("KVM_LOG_" + "MAX_SIZE_MB")
    ensures NameChars("KVM_LOG_" + "MAX_BACKUPS")
  {
  }

  lemma {:induction false} LogNamesPlain(k: LogKey)
    ensures PlainName(Log(k))
  {
    LogNames();
  }

  lemma {:induction false} LogNamesOwn(k: LogKey)
    ensures OwnName(Log(k))
  {
  }

  lemma {:induction false} LimitNames()
    ensures NameChars("KVM_SCHEDULER_" + "EVENT_" + "RETENTION_HOURS")
    ensures NameChars("KVM_BATCH_" + "CLONE_MAX_" + "CONCURRENCY")
  {
  }

  lemma {:induction false} LimitNamesPlain(k: LimitKey)
    ensures PlainName(Limit(k))
  {
    LimitNames();
  }

  lemma {:induction false} LimitNamesOwn(k: LimitKey)
    ensures OwnName(Limit(k))
  {
  }

  lemma {:induction false} SessionNames()
    ensures NameChars("KVM_SESSION_" + "FINGERPRINT_" + "ENABLED")
    ensures NameChars("KVM_PASSWORD_" + "BREACH_" + "CHECK_ENABLED")
  {
  }

  lemma {:induction false} SessionNamesPlain(k: SessionKey)
    ensures PlainName(Session(k))
  {
    SessionNames();
  }

  lemma {:induction false} SessionNamesOwn(k: SessionKey)
    ensures OwnName(Session(k))
  {
  }

  lemma {:induction false} FeatureNames()
    ensures NameChars("KVM_REQUEST_" + "FILTER_ENABLED")
    ensures NameChars("KVM_HARDWARE_" + "PASSTHROUGH_" + "ENABLED")
  {
  }

  lemma {:induction false} FeatureNamesPlain(k: FeatureKey)
    ensures PlainName(Feature(k))
  {
    FeatureNames();
  }

  lemma {:induction false} FeatureNamesOwn(k: FeatureKey)
    ensures OwnName(Feature(k))
  {
  }

  lemma {:induction false} HostNamesPlain(k: HostKey)
    ensures PlainName(Host(k))
  {
  }

  lemma {:induction false} HostNamesOwn(k: HostKey)
    ensures OwnName(Host(k))
  {
  }

  /** Every variable is spelled with capitals and underscores. */
  lemma {:induction false} NamesArePlain(k: Key)
    ensures PlainName(k)
  {
    match k
    case Image(k) => ImageNamesPlain(k);
    case Disk(k) => DiskNamesPlain(k);
    case Network(k) => NetworkNamesPlain(k);
    case Ovs(k) => OvsNamesPlain(k);
    case Port(k) => PortNamesPlain(k);
    case Probe(k) => ProbeNamesPlain(k);
    case Vpc(k) => VpcNamesPlain(k);
    case Panel(k) => PanelNamesPlain(k);
    case Maintenance(k) => MaintenanceNamesPlain(k);
    case Mail(k) => MailNamesPlain(k);
    case Memory(k) => MemoryNamesPlain(k);
    case Reserve(k) => ReserveNamesPlain(k);
    case Threshold(k) => ThresholdNamesPlain(k);
    case Health(k) => HealthNamesPlain(k);
    case Lxc(k) => LxcNamesPlain(k);
    case Log(k) => LogNamesPlain(k);
    case Limit(k) => LimitNamesPlain(k);
    case Session(k) => SessionNamesPlain(k);
    case Feature(k) => FeatureNamesPlain(k);
    case Host(k) => HostNamesPlain(k);
  }

  /** No two settings share a variable. */
  lemma {:induction false} NamesAreDistinct(k: Key, k': Key)
    requires EnvName(k).Some? && EnvName(k) == EnvName(k')
    ensures k == k'
  {
    NameIsOwn(k);
    NameIsOwn(k');
  }

  /** Looking up the variable of a key gives the key. */
  lemma {:induction false} NameIsOwn(k: Key)
    ensures OwnName(k)
  {
    match k
    case Image(k) => ImageNamesOwn(k);
    case Disk(k) => DiskNamesOwn(k);
    case Network(k) => NetworkNamesOwn(k);
    case Ovs(k) => OvsNamesOwn(k);
    case Port(k) => PortNamesOwn(k);
    case Probe(k) => ProbeNamesOwn(k);
    case Vpc(k) => VpcNamesOwn(k);
    case Panel(k) => PanelNamesOwn(k);
    case Maintenance(k) => MaintenanceNamesOwn(k);
    case Mail(k) => MailNamesOwn(k);
    case Memory(k) => MemoryNamesOwn(k);
    case Reserve(k) => ReserveNamesOwn(k);
    case Threshold(k) => ThresholdNamesOwn(k);
    case Health(k) => HealthNamesOwn(k);
    case Lxc(k) => LxcNamesOwn(k);
    case Log(k) => LogNamesOwn(k);
    case Limit(k) => LimitNamesOwn(k);
    case Session(k) => SessionNamesOwn(k);
    case Feature(k) => FeatureNamesOwn(k);
    case Host(k) => HostNamesOwn(k);
  }

  lemma {:induction false} DirsAreOneLine()
    ensures '\n' !in IMAGE_DIR && '\n' !in TEMPLATE_DIR
  {
  }

  lemma {:induction false} UnitsAreOneLine()
    ensures '\n' !in DEFAULT_UNITS
  {
  }

  lemma {:induction false} ImageDefaults(k: ImageKey)
    ensures PlainDefault(Image(k))
  {
    DirsAreOneLine();
  }

  lemma {:induction false} DiskDefaults(k: DiskKey)
    ensures PlainDefault(Disk(k))
  {
  }

  lemma {:induction false} NetworkDefaults(k: NetworkKey)
    ensures PlainDefault(Network(k))
  {
  }

  lemma {:induction false} OvsDefaults(k: OvsKey)
    ensures PlainDefault(Ovs(k))
  {
  }

  lemma {:induction false} VpcTextsAreOneLine()
    ensures '\n' !in "10.200" && '\n' !in "223.5.5.5,223.6.6.6" && '\n' !in "kvm_console_vpc_acl"
  {
  }

  lemma {:induction false} VpcDefaults(k: VpcKey)
    ensures PlainDefault(Vpc(k))
  {
    VpcTextsAreOneLine();
  }

  lemma {:induction false} PanelDefaults(k: PanelKey)
    ensures PlainDefault(Panel(k))
  {
  }

  lemma {:induction false} MailDefaults(k: MailKey)
    ensures PlainDefault(Mail(k))
  {
  }

  lemma {:induction false} LxcDefaults(k: LxcKey)
    ensures PlainDefault(Lxc(k))
  {
  }

  lemma {:induction false} LogDefaults(k: LogKey)
    ensures PlainDefault(Log(k))
  {
  }

  lemma {:induction false} DefaultsArePlain(k: Key)
    ensures PlainDefault(k)
  {
    DirsAreOneLine();
    UnitsAreOneLine();
    match k
    case Image(k) => ImageDefaults(k);
    case Disk(k) => DiskDefaults(k);
    case Network(k) => NetworkDefaults(k);
    case Ovs(k) => OvsDefaults(k);
    case Vpc(k) => VpcDefaults(k);
    case Panel(k) => PanelDefaults(k);
    case Mail(k) => MailDefaults(k);
    case Lxc(k) => LxcDefaults(k);
    case Log(k) => LogDefaults(k);
    case _ =>
  }
}
