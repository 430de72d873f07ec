/**
 * `app/checks.py`: three stand-alone configuration checks, each answering only Compliant
 * or Non Compliant.
 */
module SimpleChecks {
  import opened Wrappers
  import opened Text
  import opened ConfigTree
  import S = Status
  import AutoChecks

  type CheckResult = AutoChecks.CheckResult

  const WebguiPath: Path := [Desc("webgui"), Child("protocol")]
  const DnsServerPath: Path := [Desc("system"), Child("dnsserver")]

  /** `check_webgui_https`: `.//webgui/protocol`, lower-cased, must be "https". */
  function WebguiHttps(config: Node): CheckResult {
    var protocol := FindText(config, WebguiPath);
    if Truthy(protocol) && Lower(protocol.value) == "https" then
      AutoChecks.CheckResult(S.Compliant, "WebConfigurator is set to HTTPS")
    else AutoChecks.CheckResult(S.NonCompliant, "WebConfigurator is NOT set to HTTPS")
  }

  /** `check_dns_servers`: at least one `<dnsserver>`, whatever its text; the note counts them. */
  function DnsServers(config: Node): CheckResult {
    var servers := FindAll(config, DnsServerPath);
    if |servers| > 0 then AutoChecks.CheckResult(S.Compliant, "DNS servers found: " + NatToString(|servers|))
    else AutoChecks.CheckResult(S.NonCompliant, "No DNS servers configured")
  }

  /** `check_ipv6`: exactly "ipv4", compared case-sensitively. */
  function Ipv6(config: Node): CheckResult {
    if FindText(config, AutoChecks.IpProtocolPath) == Some("ipv4") then AutoChecks.CheckResult(S.Compliant, "IPv6 is disabled")
    else AutoChecks.CheckResult(S.NonCompliant, "IPv6 enabled")
  }

  /** None of the three ever answers Not Reviewed or Non Applicable. */
  lemma OnlyCompliantOrNot(config: Node)
    ensures WebguiHttps(config).status in {S.Compliant, S.NonCompliant}
    ensures DnsServers(config).status in {S.Compliant, S.NonCompliant}
    ensures Ipv6(config).status in {S.Compliant, S.NonCompliant}
  {
  }

  /** HTTPS iff the protocol text lower-cases to "https"; a missing element is Non Compliant. */
  lemma WebguiHttpsIff(config: Node)
    ensures WebguiHttps(config).status == S.Compliant <==>
      FindText(config, WebguiPath).Some? && Lower(FindText(config, WebguiPath).value) == "https"
    ensures FindText(config, WebguiPath).None? ==> WebguiHttps(config).status == S.NonCompliant
  {
  }

  /** Compliant iff some `system/dnsserver` element exists, and then the note carries their count. */
  lemma DnsServersIff(config: Node)
    ensures DnsServers(config).status == S.Compliant <==> FindAll(config, DnsServerPath) != []
    ensures DnsServers(config).status == S.Compliant ==>
      DnsServers(config).note == "DNS servers found: " + NatToString(|FindAll(config, DnsServerPath)|)
  {
  }

  /** Compliant exactly when the protocol text is "ipv4" as written, Non Compliant otherwise. */
  lemma Ipv6Iff(config: Node)
    ensures Ipv6(config).status == S.Compliant <==> FindText(config, AutoChecks.IpProtocolPath) == Some("ipv4")
    ensures Ipv6(config).status != S.Compliant ==> Ipv6(config) == AutoChecks.CheckResult(S.NonCompliant, "IPv6 enabled")
  {
  }

  /** "inet" and any other casing of "ipv4" are Non Compliant here, though the class-based check accepts them. */
  lemma Ipv6IsStrict(config: Node)
    requires FindText(config, AutoChecks.IpProtocolPath) in {Some("inet"), Some("IPv4"), None}
    ensures Ipv6(config).status == S.NonCompliant
  {
    Ipv6Iff(config);
  }

  /** Where this check says Compliant, the class-based 1.6 check agrees. */
  lemma Ipv6AgreesWhenCompliant(config: Node)
    requires Ipv6(config).status == S.Compliant
    ensures AutoChecks.Ipv6Disabled(config).status == S.Compliant
  {
    assert Lower("ipv4") == "ipv4";
  }

  /** Where the class-based 1.5 check says Compliant, this one does too (it needs no text). */
  lemma DnsServersWeakerThanClassBased(config: Node)
    requires AutoChecks.DnsServers(config).status == S.Compliant
    ensures DnsServers(config).status == S.Compliant
  {
  }
}
