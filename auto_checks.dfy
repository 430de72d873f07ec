/**
 * `app/auto_checks.py`: the `AutoChecker` rule checks over a pfSense configuration tree
 * and an optional remote-file capability, and `CHECK_REGISTRY`, the ordered table from
 * control id to check.
 */
module AutoChecks {
  import opened Wrappers
  import opened Text
  import opened ConfigTree
  import opened Remote
  import S = Status

  /** A check's `(status, note)` pair. */
  datatype CheckResult = CheckResult(status: S.Status, note: string)

  /**
   * What an `AutoChecker` holds: the parsed `config.xml` root and the optional SSH client.
   * `serialize` stands for `ET.tostring(elem, encoding="unicode")` and `trapSink` for the two
   * `re.search` calls over snmpd.conf text, both left uninterpreted.
   */
  datatype Env = Env(config: Node, ssh: Option<Remote>, serialize: Node -> string, trapSink: string -> bool)

  /** The note an exception becomes: `f"Auto-check error: {type(e).__name__} - {e}"`. */
  function ErrorNote(e: Error): string {
    "Auto-check error: " + e.kind + " - " + e.message
  }

  /** `x or ""` for `findtext`, then `.strip()`. */
  function TextOf(root: Node, path: Path): string {
    Strip(OrEmpty(FindText(root, path)))
  }

  // ----- SSH file checks (1.1, 1.3) -----

  predicate LineStart(s: string, i: int)
    requires 0 <= i <= |s|
  {
    i == 0 || s[i - 1] == '\n'
  }

  /** `re.search(r"^Banner\s+", s, re.MULTILINE)` matches at position `i`. */
  predicate BannerAt(s: string, i: int)
    requires 0 <= i <= |s|
  {
    LineStart(s, i) && i + 7 <= |s| && s[i..i + 6] == "Banner" && IsSpace(s[i + 6])
  }

  predicate HasBannerDirective(s: string) {
    exists i :: 0 <= i <= |s| && BannerAt(s, i)
  }

  /** Non-empty after strip: `content and content.strip()`. */
  predicate HasContent(content: Option<string>) {
    content.Some? && Strip(content.value) != ""
  }

  /** The body of `check_ssh_banner` inside its `try`. */
  function SshBannerTry(r: Remote): Result<CheckResult> {
    match ReadFile(r, "/etc/ssh/sshd_config")
    case Err(e) => Err(e)
    case Ok(sshd) =>
      if !Truthy(sshd) then Ok(CheckResult(S.NonCompliant, "Cannot read /etc/ssh/sshd_config."))
      else if !HasBannerDirective(sshd.value) then
        Ok(CheckResult(S.NonCompliant, "No Banner directive found in /etc/ssh/sshd_config."))
      else
        match FileExists(r, "/etc/issue.net")
        case Err(e) => Err(e)
        case Ok(exists_) =>
          if !exists_ then Ok(CheckResult(S.NonCompliant, "Banner directive present but /etc/issue.net is missing."))
          else
            match ReadFile(r, "/etc/issue.net")
            case Err(e) => Err(e)
            case Ok(issue) =>
              if HasContent(issue) then Ok(CheckResult(S.Compliant, "Banner directive present and /etc/issue.net has content."))
              else Ok(CheckResult(S.NonCompliant, "Banner directive present but /etc/issue.net is empty."))
  }

  const SshRequired := CheckResult(S.NotReviewed, "SSH connection required for this check.")

  /** 1.1 `check_ssh_banner`. */
  function SshBanner(env: Env): CheckResult {
    match env.ssh
    case None => SshRequired
    case Some(r) =>
      match SshBannerTry(r)
      case Ok(c) => c
      case Err(e) => CheckResult(S.NotReviewed, ErrorNote(e))
  }

  /** The body of `check_motd` inside its `try`. */
  function MotdTry(r: Remote): Result<CheckResult> {
    match FileExists(r, "/etc/motd")
    case Err(e) => Err(e)
    case Ok(exists_) =>
      if !exists_ then Ok(CheckResult(S.NonCompliant, "/etc/motd is missing."))
      else
        match ReadFile(r, "/etc/motd")
        case Err(e) => Err(e)
        case Ok(motd) =>
          if HasContent(motd) then Ok(CheckResult(S.Compliant, "/etc/motd exists and has content."))
          else Ok(CheckResult(S.NonCompliant, "/etc/motd is empty."))
  }

  /** 1.3 `check_motd`. */
  function Motd(env: Env): CheckResult {
    match env.ssh
    case None => SshRequired
    case Some(r) =>
      match MotdTry(r)
      case Ok(c) => c
      case Err(e) => CheckResult(S.NotReviewed, ErrorNote(e))
  }

  // ----- configuration checks -----

  const HostnamePath: Path := [Desc("system"), Child("hostname")]

  /** 1.4 `check_hostname`: a hostname that is not blank after strip. */
  function Hostname(config: Node): CheckResult {
    var hostname := FindText(config, HostnamePath);
    if hostname.Some? && Strip(hostname.value) != "" then
      CheckResult(S.Compliant, "Hostname set to '" + hostname.value + "'.")
    else CheckResult(S.NonCompliant, "Hostname is not set in config.xml.")
  }

  /** `[d.text for d in nodes if d.text]`. */
  function NonEmptyTexts(nodes: seq<Node>): (r: seq<string>)
    ensures |r| <= |nodes|
    ensures forall x :: x in r ==> x != ""
  {
    if nodes == [] then []
    else (if Truthy(nodes[0].text) then [nodes[0].text.value] else []) + NonEmptyTexts(nodes[1..])
  }

  /** 1.5 `check_dns_servers`. */
  function DnsServers(config: Node): CheckResult {
    var servers := FindAll(config, [Desc("system"), Child("dnsserver")]);
    if servers != [] then
      var names := NonEmptyTexts(servers);
      if names != [] then CheckResult(S.Compliant, "DNS servers configured: " + Join(names, ", "))
      else CheckResult(S.NonCompliant, "system/dnsserver entries present but empty.")
    else CheckResult(S.NonCompliant, "No DNS servers defined in system/dnsserver.")
  }

  const IpProtocolPath: Path := [Desc("interfaces"), Child("wan"), Child("ipprotocol")]

  /** 1.6 `check_ipv6_disabled`. */
  function Ipv6Disabled(config: Node): CheckResult {
    var proto := FindText(config, IpProtocolPath);
    if Truthy(proto) then
      var lower := Lower(proto.value);
      if lower == "inet" || lower == "ipv4" then
        CheckResult(S.Compliant, "WAN ipprotocol is '" + proto.value + "', IPv4-only.")
      else
        CheckResult(S.NonCompliant, "WAN ipprotocol is '" + proto.value
          + "' (IPv6 or dual-stack enabled). Verify IPv6 usage vs CIS requirements.")
    else CheckResult(S.NotReviewed, "No ipprotocol value found for WAN in config.xml.")
  }

  const WebguiProtocolPath: Path := [Desc("system"), Child("webgui"), Child("protocol")]

  /** 1.8 `check_webgui_https`. */
  function WebguiHttps(config: Node): CheckResult {
    var protocol := FindText(config, WebguiProtocolPath);
    if Truthy(protocol) && Lower(protocol.value) == "https" then CheckResult(S.Compliant, "WebGUI protocol is HTTPS.")
    else
      CheckResult(S.NonCompliant, "WebGUI protocol is '" + (if Truthy(protocol) then protocol.value else "not set")
        + "' (expected HTTPS).")
  }

  /** 1.10 `check_ntp_configured`. */
  function NtpConfigured(config: Node): CheckResult {
    var timeservers := TextOf(config, [Desc("system"), Child("timeservers")]);
    var ntpdEnable := Lower(TextOf(config, [Desc("ntpd"), Child("enable")]));
    if timeservers != "" then
      if ntpdEnable == "enabled" then CheckResult(S.Compliant, "NTP enabled with time servers: " + timeservers)
      else CheckResult(S.NonCompliant, "NTP time servers configured (" + timeservers + ") but ntpd is not enabled.")
    else CheckResult(S.NonCompliant, "No NTP time servers defined under system/timeservers.")
  }

  const SessionTimeoutPath: Path := [Desc("system"), Child("webgui"), Child("session_timeout")]

  /** 2.1 `check_session_timeout`. */
  function SessionTimeout(config: Node): CheckResult {
    var txt := FindText(config, SessionTimeoutPath);
    if txt.Some? then
      match ParseInt(txt.value)
      case Some(v) =>
        if v <= 10 then CheckResult(S.Compliant, "Session timeout set to " + IntToString(v) + " minutes.")
        else CheckResult(S.NonCompliant, "Session timeout set to " + IntToString(v) + " minutes (> 10).")
      case None => CheckResult(S.NonCompliant, "session_timeout value '" + txt.value + "' is not a valid integer.")
    else CheckResult(S.NonCompliant, "No webgui/session_timeout value set in config.xml.")
  }

  /** `a.findtext("name") or a.findtext("description")`, kept only when truthy. */
  function AuthServerName(a: Node): Option<string> {
    var name := FindText(a, [Child("name")]);
    var chosen := if Truthy(name) then name else FindText(a, [Child("description")]);
    if Truthy(chosen) then chosen else None
  }

  /** The names the loop of `check_auth_servers` collects from the first `n` servers. */
  function AuthServerNames(servers: seq<Node>, n: nat): (names: seq<string>)
    requires n <= |servers|
    ensures |names| <= n
    ensures forall x :: x in names ==> x != ""
  {
    if n == 0 then []
    else
      var name := AuthServerName(servers[n - 1]);
      AuthServerNames(servers, n - 1) + (if name.Some? then [name.value] else [])
  }

  const AuthServerPath: Path := [Desc("authserver")]

  /** The result of `check_auth_servers` once the names are collected. */
  function AuthServersResult(servers: seq<Node>, names: seq<string>): CheckResult {
    if servers != [] then
      if names != [] then CheckResult(S.Compliant, "Authentication servers configured: " + Join(names, ", "))
      else CheckResult(S.Compliant, "Authentication servers configured (names not found in XML).")
    else CheckResult(S.NonCompliant, "No LDAP/RADIUS auth servers (<authserver> blocks) found.")
  }

  /** 2.2 `check_auth_servers`. */
  function AuthServers(config: Node): CheckResult {
    var servers := FindAll(config, AuthServerPath);
    AuthServersResult(servers, AuthServerNames(servers, |servers|))
  }

  /** 2.2 `check_auth_servers`, with its loop over the `<authserver>` blocks. */
  method CheckAuthServers(config: Node) returns (r: CheckResult)
    ensures r == AuthServers(config)
  {
    var servers := FindAll(config, AuthServerPath);
    var names: seq<string> := [];
    var i := 0;
    while i < |servers|
      invariant 0 <= i <= |servers|
      invariant names == AuthServerNames(servers, i)
    {
      var name := FindText(servers[i], [Child("name")]);
      if !Truthy(name) {
        name := FindText(servers[i], [Child("description")]);
      }
      if Truthy(name) {
        names := names + [name.value];
      }
      i := i + 1;
    }
    r := AuthServersResult(servers, names);
  }

  const RocommunityPath: Path := [Desc("snmpd"), Child("rocommunity")]

  /** 3.1 `check_snmp_disabled`. */
  function SnmpDisabled(config: Node): CheckResult {
    var rocommunity := TextOf(config, RocommunityPath);
    var pollport := TextOf(config, [Desc("snmpd"), Child("pollport")]);
    if rocommunity == "" then CheckResult(S.Compliant, "SNMP read-only community is empty; SNMP appears to be disabled.")
    else
      CheckResult(S.NonCompliant, "SNMP rocommunity is configured (pollport " + pollport
        + "). Verify this meets CIS hardening requirements.")
  }

  /** 3.2 `check_captive_portal_disabled`: a captive portal element with children. */
  function CaptivePortalDisabled(config: Node): CheckResult {
    var portal := Find(config, [Desc("captiveportal")]);
    if portal.Some? && |portal.value.children| > 0 then
      CheckResult(S.NonCompliant, "Captive portal appears to have configuration present. "
        + "Verify if this is required and hardened.")
    else CheckResult(S.Compliant, "No captive portal configuration detected.")
  }

  /** 6.1 `check_syslog_configured`. */
  function SyslogConfigured(config: Node): CheckResult {
    var remoteserver := TextOf(config, [Desc("syslog"), Child("remoteserver")]);
    if remoteserver != "" then CheckResult(S.Compliant, "Remote syslog server configured: " + remoteserver)
    else CheckResult(S.NonCompliant, "No remote syslog server configured under <syslog><remoteserver>.")
  }

  /** 5.2.1 `check_timezone`. */
  function Timezone(config: Node): CheckResult {
    var timezone := TextOf(config, [Desc("system"), Child("timezone")]);
    if timezone != "" then CheckResult(S.Compliant, "System time zone set to '" + timezone + "'.")
    else CheckResult(S.NonCompliant, "System time zone is not set under <system><timezone>.")
  }

  /** 5.3.1 `check_dnssec`: looks only at an `<unbound>` that is a direct child of the root. */
  function Dnssec(config: Node): CheckResult {
    match Find(config, [Child("unbound")])
    case Some(unbound) =>
      if Has(unbound, [Child("dnssec")]) then CheckResult(S.Compliant, "Unbound DNS resolver has DNSSEC enabled.")
      else CheckResult(S.NonCompliant, "Unbound DNS resolver does not have <dnssec /> configured.")
    case None => CheckResult(S.NotReviewed, "No <unbound> DNS resolver block found.")
  }

  // ----- SNMP (5.1.x) -----

  /**
   * The snmpd.conf text `check_snmp_traps` reads: the net-snmp file, or the /var/etc one when
   * the first is missing or empty; "" without SSH or when a read raises.
   */
  function SnmpdConfText(ssh: Option<Remote>): string {
    match ssh
    case None => ""
    case Some(r) =>
      match ReadFile(r, "/var/net-snmp/snmpd.conf")
      case Err(_) => ""
      case Ok(first) =>
        if OrEmpty(first) != "" then first.value
        else
          match ReadFile(r, "/var/etc/snmpd.conf")
          case Err(_) => ""
          case Ok(second) => OrEmpty(second)
  }

  /** 5.1.1 and 5.1.2 `check_snmp_traps`. */
  function SnmpTraps(env: Env): CheckResult {
    var rocommunity := TextOf(env.config, RocommunityPath);
    var trapserver := TextOf(env.config, [Desc("snmpd"), Child("trapserver")]);
    var trapstring := TextOf(env.config, [Desc("snmpd"), Child("trapstring")]);
    var conf := SnmpdConfText(env.ssh);
    var hasSnmp := rocommunity != "" || Strip(conf) != "";
    if !hasSnmp then CheckResult(S.NonApplicable, "SNMP appears disabled.")
    else
      var trapFound := trapserver != "" || trapstring != "" || (conf != "" && env.trapSink(conf));
      if trapFound then CheckResult(S.Compliant, "SNMP trap receiver configuration detected.")
      else CheckResult(S.NonCompliant, "No SNMP trap receiver found in config.xml or snmpd.conf.")
  }

  /** `file_exists(net-snmp) or file_exists(/var/etc)`, short-circuiting; raises when not connected. */
  function SnmpdConfExists(ssh: Option<Remote>): Result<bool> {
    match ssh
    case None => Ok(false)
    case Some(r) =>
      match FileExists(r, "/var/net-snmp/snmpd.conf")
      case Err(e) => Err(e)
      case Ok(first) => if first then Ok(true) else FileExists(r, "/var/etc/snmpd.conf")
  }

  /** 5.1.3 `check_netsnmp_package`; the one check whose exception escapes to the caller. */
  function NetsnmpPackage(env: Env): Result<CheckResult> {
    var rocommunity := TextOf(env.config, RocommunityPath);
    var pkgs := Find(env.config, [Child("installedpackages")]);
    var pkgsText := if pkgs.Some? then Lower(env.serialize(pkgs.value)) else "";
    match SnmpdConfExists(env.ssh)
    case Err(e) => Err(e)
    case Ok(confExists) =>
      if rocommunity == "" && !confExists then Ok(CheckResult(S.NonApplicable, "SNMP appears disabled."))
      else if Contains(pkgsText, "net-snmp") || confExists then
        Ok(CheckResult(S.Compliant, "NET-SNMP detected (package entry or snmpd.conf present)."))
      else
        Ok(CheckResult(S.NonCompliant, "SNMP is enabled but NET-SNMP evidence not found in installed packages or config."))
  }

  // ----- VPN (5.4.x, 5.5.1) -----

  predicate HasOpenvpnServer(config: Node) {
    Has(config, [Desc("openvpn"), Child("openvpn-server")])
  }

  predicate HasIpsecPhase1(config: Node) {
    Has(config, [Desc("ipsec"), Child("phase1")])
  }

  /** 5.4.1 `check_vpn_auth`. */
  function VpnAuth(config: Node): CheckResult {
    if !(HasOpenvpnServer(config) || HasIpsecPhase1(config)) then
      CheckResult(S.NonApplicable, "No OpenVPN server or IPsec Phase1 configuration detected.")
    else CheckResult(S.NotReviewed, "VPN configuration detected; verify VPN authentication uses RADIUS or LDAP.")
  }

  /** 5.4.2 `check_vpn_certificate`. */
  function VpnCertificate(config: Node): CheckResult {
    if !(HasOpenvpnServer(config) || HasIpsecPhase1(config)) then
      CheckResult(S.NonApplicable, "No VPN portal configuration detected.")
    else CheckResult(S.NotReviewed, "VPN configuration detected; verify a trusted signed certificate is used.")
  }

  /** 5.4.3 `check_openvpn_tls`. */
  function OpenvpnTls(config: Node): CheckResult {
    if !HasOpenvpnServer(config) then CheckResult(S.NonApplicable, "No OpenVPN server configuration detected.")
    else CheckResult(S.NotReviewed, "OpenVPN server found; verify TLS encryption settings per CIS benchmark.")
  }

  /** 5.5.1 `check_openvpn_cipher`. */
  function OpenvpnCipher(config: Node): CheckResult {
    if !HasOpenvpnServer(config) then CheckResult(S.NonApplicable, "No OpenVPN server configuration detected.")
    else CheckResult(S.NotReviewed, "OpenVPN server found; verify cipher and hash algorithms per CIS benchmark.")
  }

  // ----- WAN firewall rules (4.1.x) -----

  /** `(r.findtext("interface") or "").strip() == "wan"`. */
  predicate IsWanRule(rule: Node) {
    TextOf(rule, [Child("interface")]) == "wan"
  }

  /** The positions among the first `n` of `rules` whose node satisfies `p`. */
  function Positions(rules: seq<Node>, p: Node -> bool, n: nat): set<nat>
    requires n <= |rules|
  {
    set i: nat | i < n && p(rules[i])
  }

  lemma PositionsStep(rules: seq<Node>, p: Node -> bool, n: nat)
    requires 0 < n <= |rules|
    ensures |Positions(rules, p, n)| == |Positions(rules, p, n - 1)| + (if p(rules[n - 1]) then 1 else 0)
  {
    var before := Positions(rules, p, n - 1);
    assert n - 1 !in before;
    if p(rules[n - 1]) {
      assert Positions(rules, p, n) == before + {n - 1};
    } else {
      assert Positions(rules, p, n) == before;
    }
  }

  /**
   * The nodes among the first `n` of `rules` that satisfy `p`, in order: one per accepted
   * position (so duplicates are kept), and no other node.
   */
  function Keep(rules: seq<Node>, p: Node -> bool, n: nat): (r: seq<Node>)
    requires n <= |rules|
    ensures |r| <= n
  {
    if n == 0 then []
    else Keep(rules, p, n - 1) + (if p(rules[n - 1]) then [rules[n - 1]] else [])
  }

  /** What is kept comes from `rules` and passes `p`, and every accepted node is kept. */
  lemma {:induction false} KeepMembers(rules: seq<Node>, p: Node -> bool, n: nat)
    requires n <= |rules|
    ensures forall x :: x in Keep(rules, p, n) ==> x in rules && p(x)
    ensures forall i :: 0 <= i < n && p(rules[i]) ==> rules[i] in Keep(rules, p, n)
  {
    if n > 0 {
      KeepMembers(rules, p, n - 1);
    }
  }

  /** One node is kept per accepted position, duplicates included. */
  lemma {:induction false} KeepCount(rules: seq<Node>, p: Node -> bool, n: nat)
    requires n <= |rules|
    ensures |Keep(rules, p, n)| == |Positions(rules, p, n)|
  {
    if n > 0 {
      KeepCount(rules, p, n - 1);
      PositionsStep(rules, p, n);
    }
  }

  /** Keeping from `rules` splits at any position `m`: what the first `m` give, then the rest in order. */
  lemma {:induction false} KeepSplit(rules: seq<Node>, p: Node -> bool, m: nat, n: nat)
    requires m <= n <= |rules|
    ensures Keep(rules, p, n) == Keep(rules, p, m) + Keep(rules[m..], p, n - m)
    decreases n
  {
    if n > m {
      var tail := rules[m..];
      var last: seq<Node> := if p(rules[n - 1]) then [rules[n - 1]] else [];
      KeepSplit(rules, p, m, n - 1);
      assert tail[n - m - 1] == rules[n - 1];
      assert Keep(tail, p, n - m) == Keep(tail, p, n - m - 1) + last;
    }
  }

  /** Keeping from the first `k` nodes does not look past them. */
  lemma {:induction false} KeepPrefix(rules: seq<Node>, p: Node -> bool, k: nat, m: nat)
    requires k <= m <= |rules|
    ensures Keep(rules, p, k) == Keep(rules[..m], p, k)
  {
    if k > 0 {
      KeepPrefix(rules, p, k - 1, m);
      assert rules[..m][k - 1] == rules[k - 1];
    }
  }

  /** Keeping distributes over concatenation, so it keeps order and multiplicity. */
  lemma KeepAppend(a: seq<Node>, b: seq<Node>, p: Node -> bool)
    ensures Keep(a + b, p, |a + b|) == Keep(a, p, |a|) + Keep(b, p, |b|)
  {
    KeepSplit(a + b, p, |a|, |a + b|);
    KeepPrefix(a + b, p, |a|, |a|);
    assert (a + b)[..|a|] == a && (a + b)[|a|..] == b;
  }

  /** Keeping with `q`, then with `p`, is keeping with their conjunction. */
  lemma {:induction false} KeepKeep(s: seq<Node>, q: Node -> bool, p: Node -> bool, both: Node -> bool)
    requires forall x :: both(x) == (q(x) && p(x))
    ensures Keep(Keep(s, q, |s|), p, |Keep(s, q, |s|)|) == Keep(s, both, |s|)
    decreases |s|
  {
    if s != [] {
      var n := |s|;
      var init := s[..n - 1];
      var last: seq<Node> := if q(s[n - 1]) then [s[n - 1]] else [];
      KeepPrefix(s, q, n - 1, n - 1);
      KeepPrefix(s, both, n - 1, n - 1);
      assert Keep(s, q, n) == Keep(init, q, |init|) + last;
      KeepKeep(init, q, p, both);
      KeepAppend(Keep(init, q, |init|), last, p);
      assert Keep(last, p, |last|) == if both(s[n - 1]) then [s[n - 1]] else [];
    }
  }

  /** `findall("rule")` followed by the interface test: the WAN `<rule>` children of a filter. */
  predicate IsWanRuleChild(x: Node) {
    x.tag == "rule" && IsWanRule(x)
  }

  function TagTest(t: string): Node -> bool {
    (x: Node) => x.tag == t
  }

  /** Filtering by tag is keeping with the tag test. */
  lemma {:induction false} WithTagIsKeep(s: seq<Node>, t: string)
    ensures WithTag(s, t) == Keep(s, TagTest(t), |s|)
    decreases |s|
  {
    if s != [] {
      var n := |s|;
      WithTagIsKeep(s[..n - 1], t);
      assert s == s[..n - 1] + [s[n - 1]];
      WithTagAppend(s[..n - 1], [s[n - 1]], t);
      assert WithTag([s[n - 1]], t) == if s[n - 1].tag == t then [s[n - 1]] else [];
      KeepPrefix(s, TagTest(t), n - 1, n - 1);
    }
  }

  /** `_get_wan_rules`: the WAN `<rule>` children of the first `.//filter`; [] without one. */
  function WanRules(config: Node): seq<Node> {
    match Find(config, [Desc("filter")])
    case None => []
    case Some(f) => var rules := FindAll(f, [Child("rule")]); Keep(rules, IsWanRule, |rules|)
  }

  /** The filtering loop shared by `_get_wan_rules` and the WAN checks: keep what `p` accepts. */
  method KeepAll(rules: seq<Node>, p: Node -> bool) returns (kept: seq<Node>)
    ensures kept == Keep(rules, p, |rules|)
  {
    kept := [];
    var i := 0;
    while i < |rules|
      invariant 0 <= i <= |rules|
      invariant kept == Keep(rules, p, i)
    {
      if p(rules[i]) {
        kept := kept + [rules[i]];
      }
      i := i + 1;
    }
  }

  /** Something is kept exactly when some node satisfies `p`. */
  lemma KeepNonEmptyIff(rules: seq<Node>, p: Node -> bool)
    ensures Keep(rules, p, |rules|) != [] <==> exists i :: 0 <= i < |rules| && p(rules[i])
  {
    var kept := Keep(rules, p, |rules|);
    KeepMembers(rules, p, |rules|);
    if kept != [] {
      assert kept[0] in kept;
      var i :| 0 <= i < |rules| && rules[i] == kept[0];
    }
  }

  /** `_get_wan_rules`: find the filter, then keep its WAN rules. */
  method GetWanRules(config: Node) returns (wanRules: seq<Node>)
    ensures wanRules == WanRules(config)
  {
    var filterElem := Find(config, [Desc("filter")]);
    if filterElem.None? {
      return [];
    }
    var rules := FindAll(filterElem.value, [Child("rule")]);
    wanRules := KeepAll(rules, IsWanRule);
  }

  /** The six WAN rule properties, one per control 4.1.1 to 4.1.6. */
  datatype RuleFlag = AnyDestination | AnySource | AnyService | DisabledRule | NoLogging | BadIcmp

  /** `findtext("network") or findtext("address") or ""` of an endpoint element. */
  function EndpointAddress(endpoint: Node): string {
    var network := FindText(endpoint, [Child("network")]);
    if Truthy(network) then network.value else OrEmpty(FindText(endpoint, [Child("address")]))
  }

  /** The endpoint (`destination` or `source`) exists and its address is "any" after strip and lower. */
  predicate EndpointIsAny(rule: Node, endpoint: string) {
    var e := Find(rule, [Child(endpoint)]);
    e.Some? && Lower(Strip(EndpointAddress(e.value))) == "any"
  }

  function Protocol(rule: Node): string {
    Lower(TextOf(rule, [Child("protocol")]))
  }

  /** Whether a rule is counted by the check for `flag`. */
  predicate Flags(flag: RuleFlag, rule: Node) {
    match flag
    case AnyDestination => EndpointIsAny(rule, "destination")
    case AnySource => EndpointIsAny(rule, "source")
    case AnyService => var p := Protocol(rule); p == "any" || p == "all" || p == ""
    case DisabledRule => Has(rule, [Child("disabled")])
    case NoLogging => !Has(rule, [Child("log")])
    case BadIcmp =>
      var t := Lower(TextOf(rule, [Child("icmptype")]));
      Protocol(rule) == "icmp" && (t == "" || t == "any")
  }

  /** `Flags(flag, _)` as a value. */
  function FlagTest(flag: RuleFlag): Node -> bool {
    rule => Flags(flag, rule)
  }

  function FlaggedNote(flag: RuleFlag, count: nat): string {
    var n := NatToString(count);
    match flag
    case AnyDestination => n + " WAN rule(s) allow ANY destination."
    case AnySource => n + " WAN rule(s) allow ANY source."
    case AnyService => n + " WAN rule(s) permit ANY service/protocol."
    case DisabledRule => n + " WAN rule(s) are disabled/unused."
    case NoLogging => n + " WAN rule(s) do NOT have logging enabled."
    case BadIcmp => n + " insecure ICMP rule(s) on WAN."
  }

  function CleanNote(flag: RuleFlag): string {
    match flag
    case AnyDestination => "No WAN rules allow ANY destination."
    case AnySource => "No WAN rules allow ANY source."
    case AnyService => "No WAN rules allow ANY service/protocol."
    case DisabledRule => "No disabled/unused WAN rules found."
    case NoLogging => "All WAN rules have logging enabled."
    case BadIcmp => "All WAN ICMP rules have specific ICMP types (or none exist)."
  }

  /** 4.1.1 to 4.1.6: Non Compliant with the count when some WAN rule is flagged. */
  function WanCheck(config: Node, flag: RuleFlag): CheckResult {
    WanVerdict(WanRules(config), flag)
  }

  /** The verdict over a given list of WAN rules: the count of flagged ones, or the clean note. */
  function WanVerdict(rules: seq<Node>, flag: RuleFlag): CheckResult {
    var flagged := Keep(rules, FlagTest(flag), |rules|);
    if flagged != [] then CheckResult(S.NonCompliant, FlaggedNote(flag, |flagged|))
    else CheckResult(S.Compliant, CleanNote(flag))
  }

  /** `check_wan_*`: fetch the WAN rules, then collect the flagged ones. */
  method RunWanCheck(config: Node, flag: RuleFlag) returns (r: CheckResult)
    ensures r == WanCheck(config, flag)
  {
    var rules := GetWanRules(config);
    var flagged := KeepAll(rules, FlagTest(flag));
    if |flagged| > 0 {
      r := CheckResult(S.NonCompliant, FlaggedNote(flag, |flagged|));
    } else {
      r := CheckResult(S.Compliant, CleanNote(flag));
    }
  }

  // ----- registry -----

  datatype CheckKind =
    | SshBannerCheck | MotdCheck | HostnameCheck | DnsServersCheck | Ipv6DisabledCheck
    | WebguiHttpsCheck | NtpConfiguredCheck | SessionTimeoutCheck | AuthServersCheck
    | SnmpDisabledCheck | CaptivePortalCheck | WanCheckOf(flag: RuleFlag) | SnmpTrapsCheck
    | NetsnmpPackageCheck | TimezoneCheck | DnssecCheck | VpnAuthCheck | VpnCertificateCheck
    | OpenvpnTlsCheck | OpenvpnCipherCheck | SyslogCheck

  /** `CHECK_REGISTRY`, in declaration order. */
  const Registry: seq<(string, CheckKind)> := [
    ("1.1", SshBannerCheck), ("1.3", MotdCheck), ("1.4", HostnameCheck), ("1.5", DnsServersCheck),
    ("1.6", Ipv6DisabledCheck), ("1.8", WebguiHttpsCheck), ("1.10", NtpConfiguredCheck),
    ("2.1", SessionTimeoutCheck), ("2.2", AuthServersCheck), ("3.1", SnmpDisabledCheck),
    ("3.2", CaptivePortalCheck), ("4.1.1", WanCheckOf(AnyDestination)), ("4.1.2", WanCheckOf(AnySource)),
    ("4.1.3", WanCheckOf(AnyService)), ("4.1.4", WanCheckOf(DisabledRule)), ("4.1.5", WanCheckOf(NoLogging)),
    ("4.1.6", WanCheckOf(BadIcmp)), ("5.1.1", SnmpTrapsCheck), ("5.1.2", SnmpTrapsCheck),
    ("5.1.3", NetsnmpPackageCheck), ("5.2.1", TimezoneCheck), ("5.3.1", DnssecCheck),
    ("5.4.1", VpnAuthCheck), ("5.4.2", VpnCertificateCheck), ("5.4.3", OpenvpnTlsCheck),
    ("5.5.1", OpenvpnCipherCheck), ("6.1", SyslogCheck)]

  /** `check_func(checker)`: the check's pair, or the exception it raises. */
  function RunCheck(kind: CheckKind, env: Env): Result<CheckResult> {
    match kind
    case SshBannerCheck => Ok(SshBanner(env))
    case MotdCheck => Ok(Motd(env))
    case HostnameCheck => Ok(Hostname(env.config))
    case DnsServersCheck => Ok(DnsServers(env.config))
    case Ipv6DisabledCheck => Ok(Ipv6Disabled(env.config))
    case WebguiHttpsCheck => Ok(WebguiHttps(env.config))
    case NtpConfiguredCheck => Ok(NtpConfigured(env.config))
    case SessionTimeoutCheck => Ok(SessionTimeout(env.config))
    case AuthServersCheck => Ok(AuthServers(env.config))
    case SnmpDisabledCheck => Ok(SnmpDisabled(env.config))
    case CaptivePortalCheck => Ok(CaptivePortalDisabled(env.config))
    case WanCheckOf(flag) => Ok(WanCheck(env.config, flag))
    case SnmpTrapsCheck => Ok(SnmpTraps(env))
    case NetsnmpPackageCheck => NetsnmpPackage(env)
    case TimezoneCheck => Ok(Timezone(env.config))
    case DnssecCheck => Ok(Dnssec(env.config))
    case VpnAuthCheck => Ok(VpnAuth(env.config))
    case VpnCertificateCheck => Ok(VpnCertificate(env.config))
    case OpenvpnTlsCheck => Ok(OpenvpnTls(env.config))
    case OpenvpnCipherCheck => Ok(OpenvpnCipher(env.config))
    case SyslogCheck => Ok(SyslogConfigured(env.config))
  }

  /** Runs one check, taking the looping implementation for the checks that loop. */
  method Run(kind: CheckKind, env: Env) returns (res: Result<CheckResult>)
    ensures res == RunCheck(kind, env)
  {
    match kind {
      case WanCheckOf(flag) =>
        var r := RunWanCheck(env.config, flag);
        res := Ok(r);
      case AuthServersCheck =>
        var r := CheckAuthServers(env.config);
        res := Ok(r);
      case _ =>
        res := RunCheck(kind, env);
    }
  }

  // ----- properties -----

  /** Without `<filter>` there are no WAN rules, so all six WAN checks report Compliant. */
  lemma NoFilterMeansCompliant(config: Node, flag: RuleFlag)
    requires !Has(config, [Desc("filter")])
    ensures WanRules(config) == []
    ensures WanCheck(config, flag) == CheckResult(S.Compliant, CleanNote(flag))
  {
  }

  /** A verdict is Non Compliant exactly when some rule of the list is flagged, and Compliant otherwise. */
  lemma WanVerdictNonCompliantIff(rules: seq<Node>, flag: RuleFlag)
    ensures WanVerdict(rules, flag).status == S.NonCompliant <==> exists i :: 0 <= i < |rules| && Flags(flag, rules[i])
    ensures WanVerdict(rules, flag).status != S.NonCompliant ==> WanVerdict(rules, flag).status == S.Compliant
  {
    var flagged := Keep(rules, FlagTest(flag), |rules|);
    assert WanVerdict(rules, flag).status == if flagged != [] then S.NonCompliant else S.Compliant;
    KeepNonEmptyIff(rules, FlagTest(flag));
    forall i | 0 <= i < |rules| ensures FlagTest(flag)(rules[i]) == Flags(flag, rules[i]) {
    }
  }

  /** A Non Compliant verdict's note gives the number of flagged rules. */
  lemma WanVerdictNote(rules: seq<Node>, flag: RuleFlag)
    ensures WanVerdict(rules, flag).status == S.NonCompliant ==>
      WanVerdict(rules, flag).note == FlaggedNote(flag, |set i: nat | i < |rules| && Flags(flag, rules[i])|)
  {
    KeepCount(rules, FlagTest(flag), |rules|);
    assert Positions(rules, FlagTest(flag), |rules|) == set i: nat | i < |rules| && Flags(flag, rules[i]);
  }

  /** A WAN check is Non Compliant exactly when some WAN rule is flagged, and then names how many. */
  lemma WanCheckNonCompliantIff(config: Node, flag: RuleFlag)
    ensures var rules := WanRules(config);
      && (WanCheck(config, flag).status == S.NonCompliant
          <==> exists i :: 0 <= i < |rules| && Flags(flag, rules[i]))
      && (WanCheck(config, flag).status != S.NonCompliant ==> WanCheck(config, flag).status == S.Compliant)
      && (WanCheck(config, flag).status == S.NonCompliant ==>
          WanCheck(config, flag).note == FlaggedNote(flag, |set i: nat | i < |rules| && Flags(flag, rules[i])|))
  {
    WanVerdictNonCompliantIff(WanRules(config), flag);
    WanVerdictNote(WanRules(config), flag);
  }

  /** The WAN rules are exactly the `<rule>` children of the first filter whose interface is "wan". */
  lemma WanRulesAreFilterChildren(config: Node)
    ensures forall x :: x in WanRules(config) <==>
      Has(config, [Desc("filter")]) && x in Find(config, [Desc("filter")]).value.children
      && x.tag == "rule" && IsWanRule(x)
    ensures Has(config, [Desc("filter")]) ==>
      var children := Find(config, [Desc("filter")]).value.children;
      WanRules(config) == Keep(children, IsWanRuleChild, |children|)
  {
    match Find(config, [Desc("filter")])
    case None =>
    case Some(f) =>
      var rules := FindAll(f, [Child("rule")]);
      KeepMembers(rules, IsWanRule, |rules|);
      SelectSingle(f, Child("rule"));
      WithTagIsKeep(f.children, "rule");
      KeepKeep(f.children, TagTest("rule"), IsWanRule, IsWanRuleChild);
      ChildStepIsDirect(f, "rule");
      forall x | x in f.children && x.tag == "rule" && IsWanRule(x)
        ensures x in WanRules(config)
      {
        assert x in rules;
        var i :| 0 <= i < |rules| && rules[i] == x;
      }
  }

  /** A rule whose protocol is not ICMP never counts against 4.1.6. */
  lemma IcmpCheckIgnoresOtherProtocols(rule: Node)
    requires Protocol(rule) != "icmp"
    ensures !Flags(BadIcmp, rule)
  {
  }

  /** Without SSH, 1.1 and 1.3 are Not Reviewed whatever the configuration says. */
  lemma SshChecksNeedSsh(env: Env)
    requires env.ssh.None?
    ensures SshBanner(env) == CheckResult(S.NotReviewed, "SSH connection required for this check.")
    ensures Motd(env) == CheckResult(S.NotReviewed, "SSH connection required for this check.")
  {
  }

  /** An exception inside 1.1 or 1.3 (here: the client is not connected) becomes Not Reviewed with its note. */
  lemma SshCheckErrorsAreCaught(env: Env)
    requires env.ssh.Some? && !env.ssh.value.connected
    ensures SshBanner(env) == CheckResult(S.NotReviewed, ErrorNote(NotConnected))
    ensures Motd(env) == CheckResult(S.NotReviewed, ErrorNote(NotConnected))
  {
    assert SshBannerTry(env.ssh.value) == Err(NotConnected);
    assert MotdTry(env.ssh.value) == Err(NotConnected);
  }

  /**
   * A file that exists for `stat` but fails to open (a root-only file, say): 1.3 and 1.1
   * report the read error as Not Reviewed.
   */
  lemma ExistingUnreadableFile(env: Env)
    requires env.ssh.Some? && env.ssh.value.connected
    ensures var r := env.ssh.value; var p := "/etc/motd";
      p in r.files && p !in r.statFailing && p in r.readFailing ==>
        Motd(env) == CheckResult(S.NotReviewed, ErrorNote(r.readFailing[p]))
    ensures var r := env.ssh.value; var sshd := "/etc/ssh/sshd_config"; var p := "/etc/issue.net";
      && sshd !in r.readFailing && sshd in r.files && r.files[sshd] != "" && HasBannerDirective(r.files[sshd])
      && p in r.files && p !in r.statFailing && p in r.readFailing ==>
        SshBanner(env) == CheckResult(S.NotReviewed, ErrorNote(r.readFailing[p]))
  {
  }

  /** 5.1.3 only asks `stat`: an snmpd.conf it finds counts as NET-SNMP, readable or not. */
  lemma NetsnmpCountsUnreadableConf(env: Env)
    requires env.ssh.Some? && env.ssh.value.connected
    ensures var r := env.ssh.value; var p := "/var/net-snmp/snmpd.conf";
      p in r.files && p !in r.statFailing ==>
        NetsnmpPackage(env) == Ok(CheckResult(S.Compliant, "NET-SNMP detected (package entry or snmpd.conf present)."))
    ensures var r := env.ssh.value; var p := "/var/etc/snmpd.conf";
      p in r.files && p !in r.statFailing ==>
        NetsnmpPackage(env) == Ok(CheckResult(S.Compliant, "NET-SNMP detected (package entry or snmpd.conf present)."))
  {
  }

  /** 1.1 is Compliant exactly when sshd_config has a Banner line and /etc/issue.net exists with content. */
  lemma SshBannerCompliantIff(env: Env)
    requires env.ssh.Some?
    ensures var r := env.ssh.value;
      SshBanner(env).status == S.Compliant <==>
        && ReadFile(r, "/etc/ssh/sshd_config").Ok?
        && Truthy(ReadFile(r, "/etc/ssh/sshd_config").value)
        && HasBannerDirective(ReadFile(r, "/etc/ssh/sshd_config").value.value)
        && FileExists(r, "/etc/issue.net") == Ok(true)
        && ReadFile(r, "/etc/issue.net").Ok?
        && HasContent(ReadFile(r, "/etc/issue.net").value)
  {
  }

  /** 1.4 is Compliant exactly for a hostname that is not blank after strip. */
  lemma HostnameCompliantIff(config: Node)
    ensures Hostname(config).status == S.Compliant <==>
      FindText(config, HostnamePath).Some? && Strip(FindText(config, HostnamePath).value) != ""
    ensures Hostname(config).status != S.Compliant ==> Hostname(config).status == S.NonCompliant
  {
  }

  /**
   * 2.1: an integer up to 10 is Compliant, a larger one Non Compliant, text that is not an
   * integer (including the empty text of `<session_timeout/>`) and a missing element Non Compliant.
   */
  lemma SessionTimeoutCases(config: Node)
    ensures var t := FindText(config, SessionTimeoutPath);
      && (t.Some? && ParseInt(t.value).Some? && ParseInt(t.value).value <= 10 ==> SessionTimeout(config).status == S.Compliant)
      && (t.Some? && ParseInt(t.value).Some? && ParseInt(t.value).value > 10 ==> SessionTimeout(config).status == S.NonCompliant)
      && (t.Some? && ParseInt(t.value).None? ==> SessionTimeout(config).status == S.NonCompliant)
      && (t.None? ==> SessionTimeout(config) == CheckResult(S.NonCompliant, "No webgui/session_timeout value set in config.xml."))
  {
  }

  /** An empty `<session_timeout/>` takes the "not a valid integer" branch. */
  lemma EmptySessionTimeout(config: Node)
    requires FindText(config, SessionTimeoutPath) == Some("")
    ensures SessionTimeout(config) == CheckResult(S.NonCompliant, "session_timeout value '' is not a valid integer.")
  {
    EmptyIsNotInt();
    EmptyTimeoutNote();
  }

  lemma EmptyTimeoutNote()
    ensures "session_timeout value '" + "" + "' is not a valid integer." == "session_timeout value '' is not a valid integer."
  {
  }

  /** 1.6: Not Reviewed iff ipprotocol is missing or empty; Compliant for inet/ipv4 in any ASCII casing. */
  lemma Ipv6Cases(config: Node)
    ensures var p := FindText(config, IpProtocolPath);
      && (Ipv6Disabled(config).status == S.NotReviewed <==> !Truthy(p))
      && (Truthy(p) && (Lower(p.value) == "inet" || Lower(p.value) == "ipv4") ==> Ipv6Disabled(config).status == S.Compliant)
      && (Truthy(p) && Lower(p.value) != "inet" && Lower(p.value) != "ipv4" ==> Ipv6Disabled(config).status == S.NonCompliant)
  {
  }

  /** Upper-case "INET" is accepted by 1.6. */
  lemma Ipv6UpperCaseInet(config: Node)
    requires FindText(config, IpProtocolPath) == Some("INET")
    ensures Ipv6Disabled(config).status == S.Compliant
  {
    assert Lower("INET") == "inet";
  }

  /** 5.4.1/5.4.2 are Non Applicable iff there is no VPN server at all, and otherwise Not Reviewed, never Compliant. */
  lemma VpnCases(config: Node)
    ensures var vpn := HasOpenvpnServer(config) || HasIpsecPhase1(config);
      && (VpnAuth(config).status == S.NonApplicable <==> !vpn)
      && (VpnAuth(config).status != S.NonApplicable ==> VpnAuth(config).status == S.NotReviewed)
      && (VpnCertificate(config).status == S.NonApplicable <==> !vpn)
      && (VpnCertificate(config).status != S.NonApplicable ==> VpnCertificate(config).status == S.NotReviewed)
  {
    var vpn := HasOpenvpnServer(config) || HasIpsecPhase1(config);
    assert VpnAuth(config).status == if vpn then S.NotReviewed else S.NonApplicable;
    assert VpnCertificate(config).status == if vpn then S.NotReviewed else S.NonApplicable;
  }

  /** 5.4.3/5.5.1 look only at OpenVPN: Non Applicable iff there is no OpenVPN server, otherwise Not Reviewed. */
  lemma OpenvpnCases(config: Node)
    ensures
      && (OpenvpnTls(config).status == S.NonApplicable <==> !HasOpenvpnServer(config))
      && (OpenvpnTls(config).status != S.NonApplicable ==> OpenvpnTls(config).status == S.NotReviewed)
      && (OpenvpnCipher(config).status == S.NonApplicable <==> !HasOpenvpnServer(config))
      && (OpenvpnCipher(config).status != S.NonApplicable ==> OpenvpnCipher(config).status == S.NotReviewed)
  {
    var ovpn := HasOpenvpnServer(config);
    assert OpenvpnTls(config).status == if ovpn then S.NotReviewed else S.NonApplicable;
    assert OpenvpnCipher(config).status == if ovpn then S.NotReviewed else S.NonApplicable;
  }

  /** 5.1.1/5.1.2 are Non Applicable exactly when there is no rocommunity and no non-blank snmpd.conf text. */
  lemma SnmpTrapsNonApplicableIff(env: Env)
    ensures SnmpTraps(env).status == S.NonApplicable <==>
      TextOf(env.config, RocommunityPath) == "" && Strip(SnmpdConfText(env.ssh)) == ""
  {
  }

  /** Every check except 5.1.3 handles its own failures; only 5.1.3 can raise to the caller. */
  lemma OnlyNetsnmpRaises(kind: CheckKind, env: Env)
    requires RunCheck(kind, env).Err?
    ensures kind == NetsnmpPackageCheck
    ensures env.ssh.Some? && !env.ssh.value.connected
  {
  }

  /** The registry holds 27 distinct control ids, and 5.1.1 and 5.1.2 share the trap check. */
  lemma RegistryShape()
    ensures |Registry| == 27
    ensures forall i, j :: 0 <= i < j < |Registry| ==> Registry[i].0 != Registry[j].0
    ensures Registry[17] == ("5.1.1", SnmpTrapsCheck) && Registry[18] == ("5.1.2", SnmpTrapsCheck)
    ensures Registry[0].0 == "1.1" && Registry[26].0 == "6.1"
  {
  }
}
