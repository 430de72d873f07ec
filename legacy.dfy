/**
 * `app/app.py`, the single-file version of the application: the inline configuration checks
 * of `_run_config_checks`, each writing its control through `_mark_control`, the SSH driver
 * `run_auto_checks_ssh` around them, the startup catalog loader, the summary and view over
 * the global catalog, and the CSV filename.
 *
 * The SSH client is reached only through `exec_command`, given here as a `Shell`: the output
 * of a command, or the exception it raises.
 */
module Legacy {
  import opened Wrappers
  import opened Text
  import opened ConfigTree
  import opened Catalog
  import S = Status
  import Store
  import Reports
  import Parsers
  import AutoChecks
  import App

  type Mark = App.Mark

  /** What `exec_command(cmd)` yields once both streams are read and decoded. */
  datatype Output = Output(stdout: string, stderr: string)

  /** `ssh_client.exec_command`: a command's output, or the exception it raises. */
  type Shell = string -> Result<Output>

  // ----- 1.1 and 1.3: SSH-visible files -----

  const BannerGrep := "grep -E '^Banner\\s+' /etc/ssh/sshd_config || echo ''"
  const IssueTest := "test -s /etc/issue.net && echo HAS_BANNER || echo NO_BANNER"
  const MotdTest := "test -s /etc/motd && echo HAS_MOTD || echo NO_MOTD"

  function BannerErrorNote(e: Error): string {
    "Auto-check error while reading sshd_config: " + e.kind + " - " + e.message
  }

  function MotdErrorNote(e: Error): string {
    "Auto-check error while reading /etc/motd: " + e.kind + " - " + e.message
  }

  const NoBannerNote := "No Banner directive found in /etc/ssh/sshd_config."
  const BannerNote := "Banner directive present in sshd_config and /etc/issue.net is non-empty."
  const EmptyIssueNote := "Banner directive present, but /etc/issue.net is missing or empty."

  /** 1.1: a Banner line in sshd_config, then a non-empty /etc/issue.net. */
  function BannerMark(sh: Shell): (m: Mark)
    ensures m.controlId == "1.1"
  {
    match sh(BannerGrep)
    case Err(e) => App.Mark("1.1", "Not Reviewed", BannerErrorNote(e))
    case Ok(grep) =>
      if !Contains(Strip(grep.stdout), "Banner") then
        App.Mark("1.1", "Non Compliant", NoBannerNote)
      else
        match sh(IssueTest)
        case Err(e) => App.Mark("1.1", "Not Reviewed", BannerErrorNote(e))
        case Ok(flag) =>
          if Strip(flag.stdout) == "HAS_BANNER" then App.Mark("1.1", "Compliant", BannerNote)
          else App.Mark("1.1", "Non Compliant", EmptyIssueNote)
  }

  /** 1.1 is written only with an SSH client. */
  function BannerMarks(ssh: Option<Shell>): (marks: seq<Mark>)
    ensures HasIds(marks, if ssh.Some? then ["1.1"] else [])
  {
    match ssh
    case None => []
    case Some(sh) => [BannerMark(sh)]
  }

  const MotdNote := "/etc/motd exists and is non-empty."
  const NoMotdNote := "/etc/motd is missing or empty."

  /** 1.3: the shell's answer about /etc/motd. */
  function MotdMark(sh: Shell): (m: Mark)
    ensures m.controlId == "1.3"
  {
    match sh(MotdTest)
    case Err(e) => App.Mark("1.3", "Not Reviewed", MotdErrorNote(e))
    case Ok(flag) =>
      if Strip(flag.stdout) == "HAS_MOTD" then App.Mark("1.3", "Compliant", MotdNote)
      else App.Mark("1.3", "Non Compliant", NoMotdNote)
  }

  /** 1.3 is written only with an SSH client. */
  function MotdMarks(ssh: Option<Shell>): (marks: seq<Mark>)
    ensures HasIds(marks, if ssh.Some? then ["1.3"] else [])
  {
    match ssh
    case None => []
    case Some(sh) => [MotdMark(sh)]
  }

  // ----- the values the checks read -----

  const SnmpdCat :=
    "for p in /var/net-snmp/snmpd.conf /var/etc/snmpd.conf /etc/snmpd.conf; do [ -f \"$p\" ] && cat \"$p\"; done"

  /** The snmpd.conf text: the shell's stdout, or "" without a client or when the command raises. */
  function SnmpdConf(ssh: Option<Shell>): string {
    match ssh
    case None => ""
    case Some(sh) => match sh(SnmpdCat) case Ok(out) => out.stdout case Err(_) => ""
  }

  /** The local variables `_run_config_checks` computes from config.xml and the shell. */
  datatype ConfigValues = ConfigValues(
    hostname: Option<string>,
    dnsServers: seq<Node>,
    ipProtocol: Option<string>,
    webguiProtocol: Option<string>,
    timeservers: string,
    ntpdEnable: string,
    sessionTimeout: Option<string>,
    authServers: seq<Node>,
    rocommunity: string,
    pollport: string,
    captivePortal: Option<Node>,
    remoteServer: string,
    packagesText: string,
    snmpdConf: string,
    trapServer: string,
    trapString: string,
    timezone: string,
    unbound: Option<Node>,
    hasOpenvpnServer: bool,
    hasIpsecPhase1: bool,
    hasFilter: bool,
    wanRules: seq<Node>)

  /** Each value read the way the source reads it; `serialize` stands for `ET.tostring`. */
  function Extract(root: Node, ssh: Option<Shell>, serialize: Node -> string): ConfigValues {
    var pkgs := Find(root, [Child("installedpackages")]);
    ConfigValues(
      FindText(root, AutoChecks.HostnamePath),
      FindAll(root, [Desc("system"), Child("dnsserver")]),
      FindText(root, AutoChecks.IpProtocolPath),
      FindText(root, AutoChecks.WebguiProtocolPath),
      AutoChecks.TextOf(root, [Desc("system"), Child("timeservers")]),
      Lower(AutoChecks.TextOf(root, [Desc("ntpd"), Child("enable")])),
      FindText(root, AutoChecks.SessionTimeoutPath),
      FindAll(root, AutoChecks.AuthServerPath),
      AutoChecks.TextOf(root, AutoChecks.RocommunityPath),
      AutoChecks.TextOf(root, [Desc("snmpd"), Child("pollport")]),
      Find(root, [Desc("captiveportal")]),
      AutoChecks.TextOf(root, [Desc("syslog"), Child("remoteserver")]),
      if pkgs.Some? then Lower(serialize(pkgs.value)) else "",
      SnmpdConf(ssh),
      AutoChecks.TextOf(root, [Desc("snmpd"), Child("trapserver")]),
      AutoChecks.TextOf(root, [Desc("snmpd"), Child("trapstring")]),
      AutoChecks.TextOf(root, [Desc("system"), Child("timezone")]),
      Find(root, [Child("unbound")]),
      AutoChecks.HasOpenvpnServer(root),
      AutoChecks.HasIpsecPhase1(root),
      Has(root, [Desc("filter")]),
      AutoChecks.WanRules(root))
  }

  // ----- checks over config.xml -----

  const NoHostnameNote := "Hostname is not set in config.xml."

  /** 1.4: any non-empty hostname text, whitespace included. */
  function HostnameMark(hostname: Option<string>): (m: Mark)
    ensures m.controlId == "1.4"
  {
    if Truthy(hostname) then App.Mark("1.4", "Compliant", "Hostname set to '" + hostname.value + "'.")
    else App.Mark("1.4", "Non Compliant", NoHostnameNote)
  }

  const EmptyDnsNote := "system/dnsserver entries present but empty."
  const NoDnsNote := "No DNS servers defined in system/dnsserver."

  /** 1.5. */
  function DnsMark(servers: seq<Node>): (m: Mark)
    ensures m.controlId == "1.5"
  {
    if servers != [] then
      var names := AutoChecks.NonEmptyTexts(servers);
      if names != [] then App.Mark("1.5", "Compliant", "DNS servers configured: " + Join(names, ", "))
      else App.Mark("1.5", "Non Compliant", EmptyDnsNote)
    else App.Mark("1.5", "Non Compliant", NoDnsNote)
  }

  const NoIpProtocolNote := "No ipprotocol value found for WAN in config.xml."

  /** 1.6. */
  function Ipv6Mark(proto: Option<string>): (m: Mark)
    ensures m.controlId == "1.6"
  {
    if Truthy(proto) then
      var lower := Lower(proto.value);
      if lower == "inet" || lower == "ipv4" then App.Mark("1.6", "Compliant", "WAN ipprotocol is '" + proto.value + "', IPv4-only.")
      else
        App.Mark("1.6", "Non Compliant", "WAN ipprotocol is '" + proto.value
          + "' (IPv6 or dual-stack enabled). Verify IPv6 usage vs CIS requirements.")
    else App.Mark("1.6", "Not Reviewed", NoIpProtocolNote)
  }

  const HttpsNote := "WebGUI protocol is HTTPS."

  /** 1.8. */
  function WebguiMark(protocol: Option<string>): (m: Mark)
    ensures m.controlId == "1.8"
  {
    if Truthy(protocol) && Lower(protocol.value) == "https" then App.Mark("1.8", "Compliant", HttpsNote)
    else
      App.Mark("1.8", "Non Compliant", "WebGUI protocol is '" + (if Truthy(protocol) then protocol.value else "not set")
        + "' (expected HTTPS).")
  }

  const NoTimeserversNote := "No NTP time servers defined under system/timeservers."

  /** 1.10: `timeservers` stripped, `ntpdEnable` stripped and lower-cased. */
  function NtpMark(timeservers: string, ntpdEnable: string): (m: Mark)
    ensures m.controlId == "1.10"
  {
    if timeservers != "" then
      if ntpdEnable == "enabled" then App.Mark("1.10", "Compliant", "NTP enabled with time servers: " + timeservers)
      else
        App.Mark("1.10", "Non Compliant", "NTP time servers configured (" + timeservers
          + ") but ntpd is not enabled in config.xml.")
    else App.Mark("1.10", "Non Compliant", NoTimeserversNote)
  }

  const NoSessionTimeoutNote := "No webgui/session_timeout value set in config.xml."

  /** 2.1: `int(text)`, whose ValueError is caught. */
  function SessionTimeoutMark(txt: Option<string>): (m: Mark)
    ensures m.controlId == "2.1"
  {
    if txt.Some? then
      match ParseInt(txt.value)
      case Some(v) =>
        if v <= 10 then App.Mark("2.1", "Compliant", "Session timeout set to " + IntToString(v) + " minutes.")
        else App.Mark("2.1", "Non Compliant", "Session timeout set to " + IntToString(v) + " minutes (> 10).")
      case None => App.Mark("2.1", "Non Compliant", "session_timeout value '" + txt.value + "' is not a valid integer.")
    else App.Mark("2.1", "Non Compliant", NoSessionTimeoutNote)
  }

  const UnnamedAuthServersNote := "Authentication servers configured (names not found in XML)."
  const NoAuthServersNote := "No LDAP/RADIUS auth servers (<authserver> blocks) found in config.xml."

  /** 2.2. */
  function AuthServersMark(servers: seq<Node>): (m: Mark)
    ensures m.controlId == "2.2"
  {
    if servers != [] then
      var names := AutoChecks.AuthServerNames(servers, |servers|);
      if names != [] then App.Mark("2.2", "Compliant", "Authentication servers configured: " + Join(names, ", "))
      else App.Mark("2.2", "Compliant", UnnamedAuthServersNote)
    else App.Mark("2.2", "Non Compliant", NoAuthServersNote)
  }

  const NoCommunityNote := "SNMP read-only community is empty; SNMP appears to be disabled."

  /** 3.1. */
  function SnmpCommunityMark(rocommunity: string, pollport: string): (m: Mark)
    ensures m.controlId == "3.1"
  {
    if rocommunity == "" then App.Mark("3.1", "Compliant", NoCommunityNote)
    else
      App.Mark("3.1", "Non Compliant", "SNMP rocommunity is configured (pollport " + pollport
        + "). Verify this meets CIS hardening requirements.")
  }

  const NoPortalNote := "No captive portal configuration detected in <captiveportal>."

  /** 3.2: the first `.//captiveportal`, if it has children. */
  function CaptivePortalMark(portal: Option<Node>): (m: Mark)
    ensures m.controlId == "3.2"
  {
    if portal.Some? && |portal.value.children| > 0 then
      App.Mark("3.2", "Non Compliant", "Captive portal appears to have configuration present. "
        + "Verify if this is required and hardened.")
    else App.Mark("3.2", "Compliant", NoPortalNote)
  }

  const NoSyslogNote := "No remote syslog server configured under <syslog><remoteserver>."

  /** 6.1. */
  function SyslogMark(remoteserver: string): (m: Mark)
    ensures m.controlId == "6.1"
  {
    if remoteserver != "" then App.Mark("6.1", "Compliant", "Remote syslog server configured: " + remoteserver)
    else App.Mark("6.1", "Non Compliant", NoSyslogNote)
  }

  // ----- 5.1.x: SNMP traps and NET-SNMP -----

  /** `has_snmp`: a read-only community, or snmpd.conf text that is not blank. */
  predicate HasSnmp(v: ConfigValues) {
    Strip(v.rocommunity) != "" || Strip(v.snmpdConf) != ""
  }

  /**
   * `trap_conf_found`: a trap server or trap string in config.xml, or a non-empty snmpd.conf
   * that the trap pattern matches (`trapPattern` stands for the two `re.search` calls).
   */
  predicate TrapFound(v: ConfigValues, trapPattern: string -> bool) {
    v.trapServer != "" || v.trapString != "" || (v.snmpdConf != "" && trapPattern(v.snmpdConf))
  }

  const SnmpDisabledNote := "SNMP appears disabled (no rocommunity and no snmpd.conf content)."

  const TrapReceiverNote := "SNMP trap receiver configuration detected."
  const TrapsEnabledNote := "SNMP traps appear enabled (trap settings present)."
  const NoTrapReceiverNote := "No SNMP trap receiver found in config.xml or snmpd.conf."
  const NoTrapsNote := "No SNMP trap configuration found; verify traps are enabled as required."

  /** 5.1.1 and 5.1.2, which the same trap test decides. */
  function TrapMarks(trapFound: bool): (marks: seq<Mark>)
    ensures HasIds(marks, ["5.1.1", "5.1.2"])
  {
    if trapFound then
      [App.Mark("5.1.1", "Compliant", TrapReceiverNote),
       App.Mark("5.1.2", "Compliant", TrapsEnabledNote)]
    else
      [App.Mark("5.1.1", "Non Compliant", NoTrapReceiverNote),
       App.Mark("5.1.2", "Non Compliant", NoTrapsNote)]
  }

  const NetsnmpNote := "NET-SNMP detected (package entry or snmpd.conf present)."
  const NoNetsnmpNote := "SNMP is enabled but NET-SNMP evidence not found in installed packages or config."

  /** 5.1.3: "net-snmp" in the lower-cased package list, or any snmpd.conf text. */
  function NetsnmpMark(packagesText: string, snmpdConf: string): (m: Mark)
    ensures m.controlId == "5.1.3"
  {
    if Contains(packagesText, "net-snmp") || snmpdConf != "" then
      App.Mark("5.1.3", "Compliant", NetsnmpNote)
    else App.Mark("5.1.3", "Non Compliant", NoNetsnmpNote)
  }

  /** 5.1.1, 5.1.2 and 5.1.3, in that order. */
  function SnmpMarks(v: ConfigValues, trapPattern: string -> bool): (marks: seq<Mark>)
    ensures HasIds(marks, SnmpIds)
  {
    if !HasSnmp(v) then
      [App.Mark("5.1.1", "Non Applicable", SnmpDisabledNote),
       App.Mark("5.1.2", "Non Applicable", SnmpDisabledNote),
       App.Mark("5.1.3", "Non Applicable", SnmpDisabledNote)]
    else TrapMarks(TrapFound(v, trapPattern)) + [NetsnmpMark(v.packagesText, v.snmpdConf)]
  }

  // ----- 5.2.1, 5.3.1 -----

  const NoTimezoneNote := "System time zone is not set under <system><timezone>."

  /** 5.2.1. */
  function TimezoneMark(timezone: string): (m: Mark)
    ensures m.controlId == "5.2.1"
  {
    if timezone != "" then App.Mark("5.2.1", "Compliant", "System time zone set to '" + timezone + "'.")
    else App.Mark("5.2.1", "Non Compliant", NoTimezoneNote)
  }

  const DnssecNote := "Unbound DNS resolver has DNSSEC enabled (<dnssec /> present)."
  const NoDnssecNote := "Unbound DNS resolver does not have <dnssec /> configured."
  const NoUnboundNote := "No <unbound> DNS resolver block found; verify DNSSEC configuration manually."

  /** 5.3.1: an `<unbound>` that is a direct child of the root, and its `<dnssec>` child. */
  function DnssecMark(unbound: Option<Node>): (m: Mark)
    ensures m.controlId == "5.3.1"
  {
    match unbound
    case Some(u) =>
      if Has(u, [Child("dnssec")]) then
        App.Mark("5.3.1", "Compliant", DnssecNote)
      else App.Mark("5.3.1", "Non Compliant", NoDnssecNote)
    case None =>
      App.Mark("5.3.1", "Not Reviewed", NoUnboundNote)
  }

  // ----- 5.4.x, 5.5.1: VPN -----

  const NoVpnNote := "No OpenVPN server or IPsec Phase1 configuration detected."
  const VpnAuthNote := "VPN configuration detected; verify VPN authentication uses RADIUS or LDAP."
  const NoVpnPortalNote := "No VPN portal (OpenVPN/IPsec) configuration detected."
  const VpnCertificateNote := "VPN configuration detected; verify a trusted signed certificate is used for the VPN portal."
  const NoOpenvpnNote := "No OpenVPN server configuration detected."
  const OpenvpnTlsNote := "OpenVPN server found; verify TLS encryption settings per CIS benchmark."
  const OpenvpnCipherNote := "OpenVPN server found; verify cipher and hash algorithms per CIS benchmark."

  /** 5.4.1, 5.4.2, 5.4.3 and 5.5.1, in that order. */
  function VpnMarks(ovpn: bool, ipsec: bool): (marks: seq<Mark>)
    ensures HasIds(marks, VpnIds)
  {
    var anyVpn := ovpn || ipsec;
    [ if !anyVpn then App.Mark("5.4.1", "Non Applicable", NoVpnNote)
      else App.Mark("5.4.1", "Not Reviewed", VpnAuthNote),
      if !anyVpn then App.Mark("5.4.2", "Non Applicable", NoVpnPortalNote)
      else App.Mark("5.4.2", "Not Reviewed", VpnCertificateNote),
      if !ovpn then App.Mark("5.4.3", "Non Applicable", NoOpenvpnNote)
      else App.Mark("5.4.3", "Not Reviewed", OpenvpnTlsNote),
      if !ovpn then App.Mark("5.5.1", "Non Applicable", NoOpenvpnNote)
      else App.Mark("5.5.1", "Not Reviewed", OpenvpnCipherNote) ]
  }

  // ----- 4.1.x: WAN rules -----

  /** The six WAN controls, and the rule property each one counts. */
  const WanIds: seq<string> := ["4.1.1", "4.1.2", "4.1.3", "4.1.4", "4.1.5", "4.1.6"]
  const WanFlags: seq<AutoChecks.RuleFlag> := [
    AutoChecks.AnyDestination, AutoChecks.AnySource, AutoChecks.AnyService,
    AutoChecks.DisabledRule, AutoChecks.NoLogging, AutoChecks.BadIcmp]

  const NoFilterNote := "No <filter> block found in config.xml; cannot evaluate WAN rules."

  /**
   * WAN control `k` when a `.//filter` exists: the inline loops select the flagged rules and
   * write the same notes as the class-based WAN checks.
   */
  function WanMark(wanRules: seq<Node>, k: nat): (m: Mark)
    requires k < 6
    ensures m.controlId == WanIds[k]
  {
    App.CheckMark(WanIds[k], Ok(AutoChecks.WanVerdict(wanRules, WanFlags[k])))
  }

  /** 4.1.1 to 4.1.6; without a `.//filter` every one of them is Not Reviewed. */
  function WanMarks(hasFilter: bool, wanRules: seq<Node>): (marks: seq<Mark>)
    ensures HasIds(marks, WanIds)
  {
    if hasFilter then
      [WanMark(wanRules, 0), WanMark(wanRules, 1), WanMark(wanRules, 2),
       WanMark(wanRules, 3), WanMark(wanRules, 4), WanMark(wanRules, 5)]
    else
      [App.Mark("4.1.1", "Not Reviewed", NoFilterNote), App.Mark("4.1.2", "Not Reviewed", NoFilterNote),
       App.Mark("4.1.3", "Not Reviewed", NoFilterNote), App.Mark("4.1.4", "Not Reviewed", NoFilterNote),
       App.Mark("4.1.5", "Not Reviewed", NoFilterNote), App.Mark("4.1.6", "Not Reviewed", NoFilterNote)]
  }

  // ----- _run_config_checks -----

  /** The marks written from config.xml, block after block, once the values are read. */
  function SystemMarks(v: ConfigValues): seq<Mark> {
    [HostnameMark(v.hostname), DnsMark(v.dnsServers), Ipv6Mark(v.ipProtocol), WebguiMark(v.webguiProtocol),
     NtpMark(v.timeservers, v.ntpdEnable), SessionTimeoutMark(v.sessionTimeout), AuthServersMark(v.authServers),
     SnmpCommunityMark(v.rocommunity, v.pollport), CaptivePortalMark(v.captivePortal), SyslogMark(v.remoteServer)]
  }

  /** Every `_mark_control` call of `_run_config_checks`, in the order it makes them. */
  function InlineMarks(v: ConfigValues, ssh: Option<Shell>, trapPattern: string -> bool): seq<Mark> {
    BannerMarks(ssh) + MotdMarks(ssh)
    + SystemMarks(v)
    + SnmpMarks(v, trapPattern)
    + [TimezoneMark(v.timezone), DnssecMark(v.unbound)]
    + VpnMarks(v.hasOpenvpnServer, v.hasIpsecPhase1)
    + WanMarks(v.hasFilter, v.wanRules)
  }

  /** `_run_config_checks(device_id, device, root, ssh_client)` as the marks it writes. */
  function ConfigCheckMarks(root: Node, ssh: Option<Shell>, serialize: Node -> string, trapPattern: string -> bool): seq<Mark> {
    InlineMarks(Extract(root, ssh, serialize), ssh, trapPattern)
  }

  /** A run of `_mark_control` calls, appended to the marks `done` already written since `r0`. */
  method MarkEach(db: Store.Database, index: map<string, nat>, d: int,
                  ghost r0: map<Store.ReviewKey, Store.Review>, ghost done: seq<Mark>, marks: seq<Mark>)
    requires db.Valid()
    requires db.reviews == App.ApplyMarks(r0, index, d, done)
    modifies db
    ensures db.Valid()
    ensures db.reviews == App.ApplyMarks(r0, index, d, done + marks)
    ensures db.devices == old(db.devices) && db.ids == old(db.ids)
  {
    var i := 0;
    assert done + marks[..0] == done;
    while i < |marks|
      invariant 0 <= i <= |marks|
      invariant db.Valid()
      invariant db.reviews == App.ApplyMarks(r0, index, d, done + marks[..i])
      invariant db.devices == old(db.devices) && db.ids == old(db.ids)
    {
      App.MarkControl(db, index, d, marks[i].controlId, marks[i].status, marks[i].note);
      App.ApplyMarksAppend(r0, index, d, done + marks[..i], marks[i]);
      assert done + marks[..i + 1] == (done + marks[..i]) + [marks[i]];
      i := i + 1;
    }
    assert marks[..i] == marks;
  }

  /** The body of `_run_config_checks` once its values are read: each block's writes, block after block. */
  method RunInlineChecks(db: Store.Database, index: map<string, nat>, d: int, v: ConfigValues, ssh: Option<Shell>,
                         trapPattern: string -> bool)
    requires db.Valid()
    modifies db
    ensures db.Valid()
    ensures db.reviews == App.ApplyMarks(old(db.reviews), index, d, InlineMarks(v, ssh, trapPattern))
    ensures db.devices == old(db.devices) && db.ids == old(db.ids)
  {
    ghost var r0 := db.reviews;
    var block := BannerMarks(ssh);
    MarkEach(db, index, d, r0, [], block);
    assert [] + block == block;
    ghost var done := block;
    block := MotdMarks(ssh);
    MarkEach(db, index, d, r0, done, block);
    done := done + block;
    block := SystemMarks(v);
    MarkEach(db, index, d, r0, done, block);
    done := done + block;
    block := SnmpMarks(v, trapPattern);
    MarkEach(db, index, d, r0, done, block);
    done := done + block;
    block := [TimezoneMark(v.timezone), DnssecMark(v.unbound)];
    MarkEach(db, index, d, r0, done, block);
    done := done + block;
    block := VpnMarks(v.hasOpenvpnServer, v.hasIpsecPhase1);
    MarkEach(db, index, d, r0, done, block);
    done := done + block;
    block := WanMarks(v.hasFilter, v.wanRules);
    MarkEach(db, index, d, r0, done, block);
    done := done + block;
    assert done == InlineMarks(v, ssh, trapPattern);
  }

  /** `_run_config_checks(device_id, device, root, ssh_client)`. */
  method RunConfigChecks(db: Store.Database, index: map<string, nat>, d: int, root: Node, ssh: Option<Shell>,
                         serialize: Node -> string, trapPattern: string -> bool)
    requires db.Valid()
    modifies db
    ensures db.Valid()
    ensures db.reviews == App.ApplyMarks(old(db.reviews), index, d, ConfigCheckMarks(root, ssh, serialize, trapPattern))
    ensures db.devices == old(db.devices) && db.ids == old(db.ids)
  {
    var v := Extract(root, ssh, serialize);
    RunInlineChecks(db, index, d, v, ssh, trapPattern);
  }

  // ----- run_auto_checks_ssh -----

  const ConfigCat := "cat /conf/config.xml"

  function EmptyOutputNote(stderr: string): string {
    "Auto-check failed: empty config.xml output. stderr: " + stderr
  }

  /** The marks written once connected: reading config.xml, parsing it, then the inline checks. */
  function ConnectedMarks(sh: Shell, parse: string -> Result<Node>, serialize: Node -> string,
                          trapPattern: string -> bool): seq<Mark>
  {
    match sh(ConfigCat)
    case Err(e) => [App.Mark("1.4", "Not Reviewed", App.SshErrorNote(e))]
    case Ok(out) =>
      if out.stdout == "" then [App.Mark("1.4", "Not Reviewed", EmptyOutputNote(out.stderr))]
      else match parse(out.stdout)
        case Err(e) => [App.Mark("1.4", "Not Reviewed", App.SshErrorNote(e))]
        case Ok(root) => ConfigCheckMarks(root, Some(sh), serialize, trapPattern)
  }

  /**
   * Every `_mark_control` call of the legacy `run_auto_checks_ssh`, given the device row, the
   * outcome of `connect` (the client's shell, or the exception) and the XML parser.
   */
  function LegacyAutoCheckMarks(device: Store.Device, session: Result<Shell>, parse: string -> Result<Node>,
                                serialize: Node -> string, trapPattern: string -> bool): seq<Mark>
  {
    var mgmtIp := Strip(OrEmpty(device.mgmtIp));
    var sshUser := Strip(OrEmpty(device.sshUser));
    if mgmtIp == "" || sshUser == "" then []
    else match session
      case Err(e) => [App.Mark("1.4", "Not Reviewed", App.SshErrorNote(e))]
      case Ok(sh) => ConnectedMarks(sh, parse, serialize, trapPattern)
  }

  /** The body of the legacy `run_auto_checks_ssh` inside its `try`, once connected. */
  method RunConnected(db: Store.Database, index: map<string, nat>, deviceId: int, sh: Shell,
                      parse: string -> Result<Node>, serialize: Node -> string, trapPattern: string -> bool)
    requires db.Valid()
    modifies db
    ensures db.Valid()
    ensures db.reviews == App.ApplyMarks(old(db.reviews), index, deviceId, ConnectedMarks(sh, parse, serialize, trapPattern))
    ensures db.devices == old(db.devices) && db.ids == old(db.ids)
  {
    var out := sh(ConfigCat);
    if out.Err? {
      App.MarkControl(db, index, deviceId, "1.4", "Not Reviewed", App.SshErrorNote(out.error));
      return;
    }
    if out.value.stdout == "" {
      App.MarkControl(db, index, deviceId, "1.4", "Not Reviewed", EmptyOutputNote(out.value.stderr));
      return;
    }
    var root := parse(out.value.stdout);
    if root.Err? {
      App.MarkControl(db, index, deviceId, "1.4", "Not Reviewed", App.SshErrorNote(root.error));
      return;
    }
    RunConfigChecks(db, index, deviceId, root.value, Some(sh), serialize, trapPattern);
  }

  /** The legacy `run_auto_checks_ssh(device_id, device)`. */
  method LegacyRunAutoChecksSsh(db: Store.Database, index: map<string, nat>, deviceId: int, device: Store.Device,
                                session: Result<Shell>, parse: string -> Result<Node>,
                                serialize: Node -> string, trapPattern: string -> bool)
    requires db.Valid()
    modifies db
    ensures db.Valid()
    ensures db.reviews == App.ApplyMarks(old(db.reviews), index, deviceId,
                                         LegacyAutoCheckMarks(device, session, parse, serialize, trapPattern))
    ensures db.devices == old(db.devices) && db.ids == old(db.ids)
  {
    var mgmtIp := Strip(OrEmpty(device.mgmtIp));
    var sshUser := Strip(OrEmpty(device.sshUser));
    if mgmtIp == "" || sshUser == "" {
      return;
    }
    if session.Err? {
      App.MarkControl(db, index, deviceId, "1.4", "Not Reviewed", App.SshErrorNote(session.error));
      return;
    }
    RunConnected(db, index, deviceId, session.value, parse, serialize, trapPattern);
  }

  // ----- control ids written -----

  /** `marks` writes the controls `ids`, one mark each, in order. */
  predicate HasIds(marks: seq<Mark>, ids: seq<string>) {
    |marks| == |ids| && forall i :: 0 <= i < |marks| ==> marks[i].controlId == ids[i]
  }

  const SystemIds: seq<string> := ["1.4", "1.5", "1.6", "1.8", "1.10", "2.1", "2.2", "3.1", "3.2", "6.1"]
  const SnmpIds: seq<string> := ["5.1.1", "5.1.2", "5.1.3"]
  const LateIds: seq<string> := ["5.2.1", "5.3.1"]
  const VpnIds: seq<string> := ["5.4.1", "5.4.2", "5.4.3", "5.5.1"]

  /** The controls `_run_config_checks` writes from config.xml, in order. */
  const InlineIds: seq<string> := SystemIds + SnmpIds + LateIds + VpnIds + WanIds

  /** The controls written from the SSH client: 1.1 then 1.3, or none without a client. */
  function SshIds(ssh: Option<Shell>): seq<string> {
    if ssh.Some? then ["1.1", "1.3"] else []
  }

  lemma HasIdsAppend(a: seq<Mark>, x: seq<string>, b: seq<Mark>, y: seq<string>)
    requires HasIds(a, x) && HasIds(b, y)
    ensures HasIds(a + b, x + y)
  {
  }

  /** The ids of the six blocks, joined in order. */
  lemma HasIdsConcat(a: seq<Mark>, b: seq<Mark>, c: seq<Mark>, e: seq<Mark>, f: seq<Mark>, g: seq<Mark>, x: seq<string>)
    requires HasIds(a, x) && HasIds(b, SystemIds) && HasIds(c, SnmpIds)
    requires HasIds(e, LateIds) && HasIds(f, VpnIds) && HasIds(g, WanIds)
    ensures HasIds(a + b + c + e + f + g, x + InlineIds)
  {
    HasIdsAppend(a, x, b, SystemIds);
    HasIdsAppend(a + b, x + SystemIds, c, SnmpIds);
    HasIdsAppend(a + b + c, x + SystemIds + SnmpIds, e, LateIds);
    HasIdsAppend(a + b + c + e, x + SystemIds + SnmpIds + LateIds, f, VpnIds);
    HasIdsAppend(a + b + c + e + f, x + SystemIds + SnmpIds + LateIds + VpnIds, g, WanIds);
    assert x + SystemIds + SnmpIds + LateIds + VpnIds + WanIds == x + InlineIds;
  }

  /** A control that is not among `ids` receives no mark. */
  lemma HasIdsExcludes(marks: seq<Mark>, ids: seq<string>, id: string)
    requires HasIds(marks, ids) && id !in ids
    ensures forall m :: m in marks ==> m.controlId != id
  {
    forall m | m in marks
      ensures m.controlId != id
    {
      var i :| 0 <= i < |marks| && marks[i] == m;
      assert m.controlId == ids[i];
    }
  }

  /**
   * The inline blocks write 1.1 and 1.3 only when there is an SSH client, and then first;
   * every other control of their list exactly once, in source order, whatever the values.
   */
  lemma InlineMarksIds(v: ConfigValues, ssh: Option<Shell>, trapPattern: string -> bool)
    ensures HasIds(InlineMarks(v, ssh, trapPattern), SshIds(ssh) + InlineIds)
  {
    SshBlocksIds(ssh);
    SystemMarksIds(v);
    HasIdsConcat(BannerMarks(ssh) + MotdMarks(ssh), SystemMarks(v), SnmpMarks(v, trapPattern),
                 [TimezoneMark(v.timezone), DnssecMark(v.unbound)], VpnMarks(v.hasOpenvpnServer, v.hasIpsecPhase1),
                 WanMarks(v.hasFilter, v.wanRules), SshIds(ssh));
  }

  /** The block read from config.xml writes 1.4 through 6.1, one mark each, in source order. */
  lemma SystemMarksIds(v: ConfigValues)
    ensures HasIds(SystemMarks(v), SystemIds)
  {
    SystemBlockIds(HostnameMark(v.hostname), DnsMark(v.dnsServers), Ipv6Mark(v.ipProtocol), WebguiMark(v.webguiProtocol),
                   NtpMark(v.timeservers, v.ntpdEnable), SessionTimeoutMark(v.sessionTimeout), AuthServersMark(v.authServers),
                   SnmpCommunityMark(v.rocommunity, v.pollport), CaptivePortalMark(v.captivePortal), SyslogMark(v.remoteServer));
  }

  lemma SystemBlockIds(m0: Mark, m1: Mark, m2: Mark, m3: Mark, m4: Mark, m5: Mark, m6: Mark, m7: Mark, m8: Mark, m9: Mark)
    requires m0.controlId == "1.4" && m1.controlId == "1.5" && m2.controlId == "1.6" && m3.controlId == "1.8"
    requires m4.controlId == "1.10" && m5.controlId == "2.1" && m6.controlId == "2.2" && m7.controlId == "3.1"
    requires m8.controlId == "3.2" && m9.controlId == "6.1"
    ensures HasIds([m0, m1, m2, m3, m4, m5, m6, m7, m8, m9], SystemIds)
  {
  }

  lemma SshBlocksIds(ssh: Option<Shell>)
    ensures HasIds(BannerMarks(ssh) + MotdMarks(ssh), SshIds(ssh))
  {
    var x1: seq<string> := if ssh.Some? then ["1.1"] else [];
    var x3: seq<string> := if ssh.Some? then ["1.3"] else [];
    HasIdsAppend(BannerMarks(ssh), x1, MotdMarks(ssh), x3);
    assert x1 + x3 == SshIds(ssh);
  }

  /** `_run_config_checks` writes every control of its list once, in source order, whatever config.xml holds. */
  lemma ConfigCheckIds(root: Node, ssh: Option<Shell>, serialize: Node -> string, trapPattern: string -> bool)
    ensures HasIds(ConfigCheckMarks(root, ssh, serialize, trapPattern), SshIds(ssh) + InlineIds)
  {
    InlineMarksIds(Extract(root, ssh, serialize), ssh, trapPattern);
  }

  /** Marks carrying exactly the controls read from config.xml never write 1.1 or 1.3. */
  lemma InlineIdsExclude(marks: seq<Mark>)
    requires HasIds(marks, InlineIds)
    ensures forall m :: m in marks ==> m.controlId != "1.1" && m.controlId != "1.3"
  {
    HasIdsExcludes(marks, InlineIds, "1.1");
    HasIdsExcludes(marks, InlineIds, "1.3");
  }

  /** Without an SSH client controls 1.1 and 1.3 receive no write at all. */
  lemma NoSshLeavesBannerAndMotd(root: Node, serialize: Node -> string, trapPattern: string -> bool)
    ensures forall m :: m in ConfigCheckMarks(root, None, serialize, trapPattern) ==>
      m.controlId != "1.1" && m.controlId != "1.3"
  {
    ConfigCheckIds(root, None, serialize, trapPattern);
    assert SshIds(None) + InlineIds == InlineIds;
    InlineIdsExclude(ConfigCheckMarks(root, None, serialize, trapPattern));
  }

  /** 1.4 is Compliant for any non-empty hostname text; a blank one is Compliant here but not in the class-based check. */
  lemma HostnameNotStripped(root: Node)
    ensures var hostname := FindText(root, AutoChecks.HostnamePath);
      && (HostnameMark(hostname).status == "Compliant" <==> Truthy(hostname))
      && (HostnameMark(hostname).status != "Compliant" ==> HostnameMark(hostname).status == "Non Compliant")
      && (hostname == Some(" ") ==>
            HostnameMark(hostname).status == "Compliant" && AutoChecks.Hostname(root).status == S.NonCompliant)
  {
    assert Strip(" ") == "";
  }

  /** Without `<filter>` all six WAN controls are Not Reviewed, where the class-based checks answer Compliant. */
  lemma NoFilterMarksNotReviewed(root: Node)
    requires !Has(root, [Desc("filter")])
    ensures var marks := WanMarks(Has(root, [Desc("filter")]), AutoChecks.WanRules(root));
      && HasIds(marks, WanIds)
      && forall m :: m in marks ==> m.status == "Not Reviewed" && m.note == NoFilterNote
    ensures forall flag :: AutoChecks.WanCheck(root, flag).status == S.Compliant
  {
    forall flag
      ensures AutoChecks.WanCheck(root, flag).status == S.Compliant
    {
      AutoChecks.NoFilterMeansCompliant(root, flag);
    }
  }

  /**
   * With a `<filter>`, WAN control `k` is Non Compliant exactly when some WAN rule has its
   * property, else Compliant, and it carries the class-based check's note.
   */
  lemma WanMarkWithFilter(wanRules: seq<Node>, k: nat)
    requires k < 6
    ensures var m := WanMark(wanRules, k);
      && (m.status == "Non Compliant" <==> exists j :: 0 <= j < |wanRules| && AutoChecks.Flags(WanFlags[k], wanRules[j]))
      && (m.status != "Non Compliant" ==> m.status == "Compliant")
      && m.note == AutoChecks.WanVerdict(wanRules, WanFlags[k]).note
  {
    AutoChecks.WanVerdictNonCompliantIff(wanRules, WanFlags[k]);
  }

  /** The WAN rules the inline loop reads are the ones the class-based checks read, so with a filter both agree. */
  lemma WanAgrees(root: Node, k: nat)
    requires k < 6
    ensures WanMark(AutoChecks.WanRules(root), k).status == S.ToString(AutoChecks.WanCheck(root, WanFlags[k]).status)
  {
  }

  /**
   * With no community string and blank snmpd.conf text all three SNMP controls are Non
   * Applicable; 5.1.1 and 5.1.2 always share a status, Compliant exactly when trap settings are found.
   */
  lemma SnmpMarksAgree(v: ConfigValues, trapPattern: string -> bool)
    ensures var marks := SnmpMarks(v, trapPattern);
      && |marks| == 3
      && marks[0].status == marks[1].status
      && (!HasSnmp(v) ==> forall m :: m in marks ==> m.status == "Non Applicable")
      && (HasSnmp(v) ==>
            (marks[0].status == "Compliant" <==> TrapFound(v, trapPattern))
            && (marks[0].status == "Compliant" || marks[0].status == "Non Compliant")
            && (marks[2].status == "Compliant" <==> Contains(v.packagesText, "net-snmp") || v.snmpdConf != "")
            && (marks[2].status == "Compliant" || marks[2].status == "Non Compliant"))
  {
    if HasSnmp(v) {
      assert SnmpMarks(v, trapPattern) == TrapMarks(TrapFound(v, trapPattern)) + [NetsnmpMark(v.packagesText, v.snmpdConf)];
    }
  }

  /** Without an SSH client there is no snmpd.conf text, so an empty community string leaves SNMP Non Applicable. */
  lemma SnmpWithoutSsh(v: ConfigValues, trapPattern: string -> bool)
    requires v.snmpdConf == SnmpdConf(None) && v.rocommunity == ""
    ensures forall m :: m in SnmpMarks(v, trapPattern) ==> m.status == "Non Applicable"
  {
    assert !HasSnmp(v) by { assert Strip("") == ""; }
    SnmpDisabledMarks(v, trapPattern);
  }

  /** Without SNMP evidence every SNMP control is Non Applicable. */
  lemma SnmpDisabledMarks(v: ConfigValues, trapPattern: string -> bool)
    requires !HasSnmp(v)
    ensures forall m :: m in SnmpMarks(v, trapPattern) ==> m.status == "Non Applicable"
  {
  }

  /** The four VPN controls carry the class-based checks' statuses: Non Applicable or Not Reviewed, never Compliant. */
  lemma VpnAgrees(root: Node)
    ensures var marks := VpnMarks(AutoChecks.HasOpenvpnServer(root), AutoChecks.HasIpsecPhase1(root));
      && marks[0].status == S.ToString(AutoChecks.VpnAuth(root).status)
      && marks[1].status == S.ToString(AutoChecks.VpnCertificate(root).status)
      && marks[2].status == S.ToString(AutoChecks.OpenvpnTls(root).status)
      && marks[3].status == S.ToString(AutoChecks.OpenvpnCipher(root).status)
      && (forall m :: m in marks ==> m.status == "Non Applicable" || m.status == "Not Reviewed")
  {
  }

  /** The inline 1.5 block reaches the same status as the class-based check. */
  lemma DnsAgrees(root: Node)
    ensures DnsMark(FindAll(root, [Desc("system"), Child("dnsserver")])).status
         == S.ToString(AutoChecks.DnsServers(root).status)
  {
  }

  /** The inline 1.6 block reaches the same status and note as the class-based check. */
  lemma Ipv6Agrees(root: Node)
    ensures var r := AutoChecks.Ipv6Disabled(root);
      Ipv6Mark(FindText(root, AutoChecks.IpProtocolPath)) == App.Mark("1.6", S.ToString(r.status), r.note)
  {
  }

  /** The inline 1.8 block reaches the same status and note as the class-based check. */
  lemma WebguiAgrees(root: Node)
    ensures var r := AutoChecks.WebguiHttps(root);
      WebguiMark(FindText(root, AutoChecks.WebguiProtocolPath)) == App.Mark("1.8", S.ToString(r.status), r.note)
  {
  }

  /** The inline 1.10 block reaches the same status as the class-based check; only its note differs. */
  lemma NtpAgrees(root: Node)
    ensures NtpMark(AutoChecks.TextOf(root, [Desc("system"), Child("timeservers")]),
                    Lower(AutoChecks.TextOf(root, [Desc("ntpd"), Child("enable")]))).status
         == S.ToString(AutoChecks.NtpConfigured(root).status)
  {
  }

  /** The inline 2.1 block reaches the same status and note as the class-based check. */
  lemma SessionTimeoutAgrees(root: Node)
    ensures var r := AutoChecks.SessionTimeout(root);
      SessionTimeoutMark(FindText(root, AutoChecks.SessionTimeoutPath)) == App.Mark("2.1", S.ToString(r.status), r.note)
  {
  }

  /** The inline 2.2 block reaches the same status as the class-based check. */
  lemma AuthServersAgree(root: Node)
    ensures AuthServersMark(FindAll(root, AutoChecks.AuthServerPath)).status
         == S.ToString(AutoChecks.AuthServers(root).status)
  {
  }

  /** The inline 3.1 block reaches the same status as the class-based check. */
  lemma SnmpCommunityAgrees(root: Node)
    ensures SnmpCommunityMark(AutoChecks.TextOf(root, AutoChecks.RocommunityPath),
                              AutoChecks.TextOf(root, [Desc("snmpd"), Child("pollport")])).status
         == S.ToString(AutoChecks.SnmpDisabled(root).status)
  {
  }

  /** The inline 3.2 block reaches the same status as the class-based check. */
  lemma CaptivePortalAgrees(root: Node)
    ensures CaptivePortalMark(Find(root, [Desc("captiveportal")])).status
         == S.ToString(AutoChecks.CaptivePortalDisabled(root).status)
  {
  }

  /** The inline 6.1 and 5.2.1 blocks reach the same statuses as the class-based checks. */
  lemma SyslogAndTimezoneAgree(root: Node)
    ensures SyslogMark(AutoChecks.TextOf(root, [Desc("syslog"), Child("remoteserver")])).status
         == S.ToString(AutoChecks.SyslogConfigured(root).status)
    ensures TimezoneMark(AutoChecks.TextOf(root, [Desc("system"), Child("timezone")])).status
         == S.ToString(AutoChecks.Timezone(root).status)
  {
  }

  /** The inline 5.3.1 block reaches the same status as the class-based check. */
  lemma DnssecAgrees(root: Node)
    ensures DnssecMark(Find(root, [Child("unbound")])).status == S.ToString(AutoChecks.Dnssec(root).status)
  {
  }

  /**
   * Nothing is written without a target; once there is one, either only 1.4 is written, as Not
   * Reviewed (failed connect, command, or parse, or empty output), or every inline block runs
   * with the SSH client.
   */
  lemma LegacyAutoCheckShape(device: Store.Device, session: Result<Shell>, parse: string -> Result<Node>,
                             serialize: Node -> string, trapPattern: string -> bool)
    ensures var marks := LegacyAutoCheckMarks(device, session, parse, serialize, trapPattern);
      && (Strip(OrEmpty(device.mgmtIp)) == "" || Strip(OrEmpty(device.sshUser)) == "" ==> marks == [])
      && (Strip(OrEmpty(device.mgmtIp)) != "" && Strip(OrEmpty(device.sshUser)) != "" ==>
            || (|marks| == 1 && marks[0].controlId == "1.4" && marks[0].status == "Not Reviewed")
            || HasIds(marks, ["1.1", "1.3"] + InlineIds))
  {
    if Strip(OrEmpty(device.mgmtIp)) != "" && Strip(OrEmpty(device.sshUser)) != "" && session.Ok? {
      var sh := session.value;
      var out := sh(ConfigCat);
      if out.Ok? && out.value.stdout != "" && parse(out.value.stdout).Ok? {
        ConfigCheckIds(parse(out.value.stdout).value, Some(sh), serialize, trapPattern);
      }
    }
  }

  /** An empty `cat` output writes only 1.4, with the command's stderr in the note. */
  lemma EmptyOutputNotesStderr(device: Store.Device, sh: Shell, parse: string -> Result<Node>,
                               serialize: Node -> string, trapPattern: string -> bool)
    requires Strip(OrEmpty(device.mgmtIp)) != "" && Strip(OrEmpty(device.sshUser)) != ""
    requires sh(ConfigCat).Ok? && sh(ConfigCat).value.stdout == ""
    ensures LegacyAutoCheckMarks(device, Ok(sh), parse, serialize, trapPattern) ==
      [App.Mark("1.4", "Not Reviewed", "Auto-check failed: empty config.xml output. stderr: " + sh(ConfigCat).value.stderr)]
  {
  }

  // ----- load_checklist_items -----

  /** What the legacy loader returns: a list of items, or whatever other value the JSON holds. */
  datatype LegacyCatalog = ItemList(items: seq<Item>) | OtherJsonValue

  /**
   * The legacy `load_checklist_items`: the CKL when the file exists and loads, otherwise
   * `json.load` of the JSON file with no check on the value's shape.
   */
  function LegacyLoadChecklist(ckl: Parsers.CklFile, cklPath: string, json: Parsers.JsonFile, jsonPath: string): Result<LegacyCatalog> {
    if !ckl.CklMissing? && Parsers.LoadCkl(ckl, cklPath).Ok? then Ok(ItemList(Parsers.LoadCkl(ckl, cklPath).value))
    else match json
      case JsonMissing => Err(Error("FileNotFoundError", "[Errno 2] No such file or directory: '" + jsonPath + "'"))
      case JsonMalformed(msg) => Err(Error("JSONDecodeError", msg))
      case JsonNotAList => Ok(OtherJsonValue)
      case JsonList(items) => Ok(ItemList(items))
  }

  /**
   * Wherever the package loader yields items, the legacy loader yields the same items; a JSON
   * value that is not a list is refused by the package loader but returned by the legacy one.
   */
  lemma LegacyLoaderAgrees(ckl: Parsers.CklFile, cklPath: string, json: Parsers.JsonFile, jsonPath: string)
    ensures Parsers.LoadChecklist(ckl, cklPath, json, jsonPath).Ok? ==>
      LegacyLoadChecklist(ckl, cklPath, json, jsonPath) == Ok(ItemList(Parsers.LoadChecklist(ckl, cklPath, json, jsonPath).value))
    ensures LegacyLoadChecklist(ckl, cklPath, json, jsonPath).Ok? && LegacyLoadChecklist(ckl, cklPath, json, jsonPath).value.ItemList? ==>
      Parsers.LoadChecklist(ckl, cklPath, json, jsonPath).Ok?
    ensures Parsers.LoadCkl(ckl, cklPath).Err? && json.JsonNotAList? ==>
      LegacyLoadChecklist(ckl, cklPath, json, jsonPath) == Ok(OtherJsonValue)
      && Parsers.LoadChecklist(ckl, cklPath, json, jsonPath).Err?
  {
  }

  // ----- the summary and view over the global catalog -----

  /** The legacy `compute_device_summary(device_id)`: the reports summary over the global catalog and the device's reviews. */
  method LegacyComputeDeviceSummary(db: Store.Database, checklistItems: seq<Item>, deviceId: int) returns (s: Reports.Summary)
    ensures s == Reports.Summarize(checklistItems, db.GetReviewsForDevice(deviceId))
    ensures s.notReviewed + s.compliant + s.nonCompliant + s.nonApplicable == |checklistItems|
    ensures 0.0 <= s.compliancePct <= 100.0
  {
    var reviews := db.GetReviewsForDevice(deviceId);
    s := Reports.ComputeDeviceSummary(checklistItems, reviews);
    Reports.SummaryPartition(checklistItems, reviews);
    Reports.PctBounds(checklistItems, reviews);
  }

  /** The legacy `build_device_items(device_id)`: the reports view over the global catalog and the device's reviews. */
  method LegacyBuildDeviceItems(db: Store.Database, checklistItems: seq<Item>, deviceId: int) returns (view: seq<Reports.DeviceItem>)
    ensures |view| == |checklistItems|
    ensures forall i :: 0 <= i < |checklistItems| ==>
      view[i] == Reports.ViewItem(checklistItems[i], i, db.GetReviewsForDevice(deviceId))
  {
    view := Reports.BuildDeviceItems(checklistItems, db.GetReviewsForDevice(deviceId));
  }

  // ----- device_export_csv -----

  /** `pfsense_benchmark_{safe_name}.csv`, where only spaces are replaced. */
  function LegacyCsvFilename(deviceName: string): string {
    "pfsense_benchmark_" + App.SpacesToUnderscores(deviceName) + ".csv"
  }

  /** The legacy filename keeps every character but the space, which becomes '_'. */
  lemma LegacyFilenameKeepsOtherChars(deviceName: string)
    ensures var name := LegacyCsvFilename(deviceName)[18..|LegacyCsvFilename(deviceName)| - 4];
      && |name| == |deviceName|
      && ' ' !in name
      && forall i :: 0 <= i < |deviceName| && deviceName[i] != ' ' ==> name[i] == deviceName[i]
  {
    var safe := App.SpacesToUnderscores(deviceName);
    assert LegacyCsvFilename(deviceName)[18..|LegacyCsvFilename(deviceName)| - 4] == safe;
  }

  /** "FW #1" keeps its '#' here, where the sanitized name drops it. */
  lemma LegacyFilenameExample()
    ensures LegacyCsvFilename("FW #1") == "pfsense_benchmark_FW_#1.csv"
  {
    var safe := App.SpacesToUnderscores("FW #1");
    assert safe == "FW_#1" by {
      assert |safe| == 5 && safe[2] == '_';
    }
    assert "pfsense_benchmark_" + "FW_#1" + ".csv" == "pfsense_benchmark_FW_#1.csv";
  }
}
