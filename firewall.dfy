/** Stopping the firewall (puppet_utils.rb:309-329): an ordered match of the
    host's platform name against a few substrings, each choosing how the
    firewall is cleared or stopped. */
module Firewall {
  import opened RubyText
  import opened Harness

  /** What is done on one host. */
  datatype Action =
    | FlushIptables              // look for iptables, flush it when found
    | StopService(name: string)  // stop a service through `puppet resource`
    | NoAction                   // only a notice is logged

  const WhichIptablesCommand := "which iptables"
  const FlushCommand := "iptables -F"

  function StopServiceCommand(name: string): string {
    "puppet resource service " + name + " ensure=stopped"
  }

  /** `host['platform']`; nil when the option is absent. */
  function PlatformOf(h: Host): Option<string> {
    if "platform" in h.attrs then Some(h.attrs["platform"]) else None
  }

  /** The `case` over the platform: the first branch whose pattern matches
      wins; a nil platform matches no pattern. */
  function ChooseFirewall(platform: Option<string>): Action {
    match platform
    case None => NoAction
    case Some(p) =>
      if Contains(p, "debian") then FlushIptables
      else if Contains(p, "fedora") || Contains(p, "el-7") then StopService("firewalld")
      else if Contains(p, "el-") || Contains(p, "centos") then StopService("iptables")
      else if Contains(p, "ubuntu") then StopService("ufw")
      else NoAction
  }

  /** The calls made on one host; `respond` gives the exit code of the
      iptables lookup. */
  function FirewallCalls(h: Host, respond: (Host, string) -> Output): seq<Call> {
    match ChooseFirewall(PlatformOf(h))
    case FlushIptables =>
      [Run(h, WhichIptablesCommand, AnyCode)] +
      (if respond(h, WhichIptablesCommand).exitCode == 0 then [Run(h, FlushCommand, Zero)] else [])
    case StopService(name) => [Run(h, StopServiceCommand(name), Zero)]
    case NoAction => []
  }

  /** stop_firewall_with_puppet_on(hosts): host by host, in order. */
  function StopFirewallCalls(hosts: seq<Host>, respond: (Host, string) -> Output): seq<Call>
    decreases |hosts|
  {
    if hosts == [] then []
    else StopFirewallCalls(hosts[..|hosts| - 1], respond) + FirewallCalls(hosts[|hosts| - 1], respond)
  }

  lemma StopFirewallSnoc(hosts: seq<Host>, respond: (Host, string) -> Output, i: nat)
    requires i < |hosts|
    ensures StopFirewallCalls(hosts[..i + 1], respond) == StopFirewallCalls(hosts[..i], respond) + FirewallCalls(hosts[i], respond)
  {
    assert hosts[..i + 1][..i] == hosts[..i];
  }

  // ------------------------------------------------------------------
  // The dispatch

  /** Every branch is chosen exactly when its pattern matches and no earlier
      one does; nothing at all is done when none matches, or when the host
      has no platform. */
  lemma ChooseFirewallBranches(platform: Option<string>)
    ensures platform.None? ==> ChooseFirewall(platform) == NoAction
    ensures platform.Some? ==>
      var p, a := platform.value, ChooseFirewall(platform);
      var debian := Contains(p, "debian");
      var firewalld := Contains(p, "fedora") || Contains(p, "el-7");
      var iptables := Contains(p, "el-") || Contains(p, "centos");
      var ufw := Contains(p, "ubuntu");
      && (a == FlushIptables <==> debian)
      && (a == StopService("firewalld") <==> !debian && firewalld)
      && (a == StopService("iptables") <==> !debian && !firewalld && iptables)
      && (a == StopService("ufw") <==> !debian && !firewalld && !iptables && ufw)
      && (a == NoAction <==> !debian && !firewalld && !iptables && !ufw)
  {
  }

  /** The only services ever stopped are firewalld, iptables and ufw. */
  lemma StoppedServices(platform: Option<string>)
    requires ChooseFirewall(platform).StopService?
    ensures ChooseFirewall(platform).name in {"firewalld", "iptables", "ufw"}
  {
  }

  /** Every platform that matches `el-7` matches `el-` too: only the order
      of the branches sends el-7 to firewalld rather than to iptables. */
  lemma El7MatchesEl(p: string)
    requires Contains(p, "el-7")
    ensures Contains(p, "el-")
  {
    var k :| OccursAt(p, "el-7", k);
    assert p[k..k + 3] == p[k..k + 4][..3];
    ContainsWitness(p, "el-", k);
  }

  /** A pattern with a character the platform lacks does not match. */
  lemma MissingChar(p: string, sub: string, c: char)
    requires c in sub && c !in p
    ensures !Contains(p, sub)
  {
  }

  // ------------------------------------------------------------------
  // The calls

  /** A platform that matches nothing, or no platform, issues no command. */
  lemma NoActionNoCalls(h: Host, respond: (Host, string) -> Output)
    requires ChooseFirewall(PlatformOf(h)) == NoAction
    ensures FirewallCalls(h, respond) == []
  {
  }

  /** On Debian, iptables is flushed exactly when `which iptables` exits 0. */
  lemma FlushOnlyWhenFound(h: Host, respond: (Host, string) -> Output)
    requires ChooseFirewall(PlatformOf(h)) == FlushIptables
    ensures FirewallCalls(h, respond)[0] == Run(h, WhichIptablesCommand, AnyCode)
    ensures Run(h, FlushCommand, Zero) in FirewallCalls(h, respond) <==>
      respond(h, WhichIptablesCommand).exitCode == 0
  {
    var w := Run(h, WhichIptablesCommand, AnyCode);
    assert w != Run(h, FlushCommand, Zero) by {
      assert |WhichIptablesCommand| != |FlushCommand|;
    }
  }

  /** Every call goes to the host it is issued for, and is accepted on exit
      code 0 only, except the iptables lookup which accepts every code. */
  lemma FirewallCallsOnHost(h: Host, respond: (Host, string) -> Output, c: Call)
    requires c in FirewallCalls(h, respond)
    ensures c.Run? && c.host == h
    ensures c.accept == AnyCode ==> c.command == WhichIptablesCommand
    ensures c.accept != AnyCode ==> c.accept == Zero
  {
  }

  /** Every call of the whole run goes to one of the hosts. */
  lemma {:induction false} StopFirewallOnHosts(hosts: seq<Host>, respond: (Host, string) -> Output, c: Call)
    requires c in StopFirewallCalls(hosts, respond)
    ensures c.Run? && c.host in hosts
    decreases |hosts|
  {
    var init, h := hosts[..|hosts| - 1], hosts[|hosts| - 1];
    if c in StopFirewallCalls(init, respond) {
      StopFirewallOnHosts(init, respond, c);
      assert c.host in init;
    } else {
      FirewallCallsOnHost(h, respond, c);
    }
  }

  // ------------------------------------------------------------------
  // Worked cases

  lemma DebianFlushes(p: string)
    requires p == "debian-10"
    ensures ChooseFirewall(Some(p)) == FlushIptables
  {
    ContainsWitness(p, "debian", 0);
  }

  /** el-7 stops firewalld, although it matches `el-` as well. */
  lemma El7StopsFirewalld(p: string)
    requires p == "el-7-x86_64"
    ensures ChooseFirewall(Some(p)) == StopService("firewalld")
  {
    MissingChar(p, "debian", 'b');
    ContainsWitness(p, "el-7", 0);
  }

  lemma El8StopsIptables(p: string)
    requires p == "el-8"
    ensures ChooseFirewall(Some(p)) == StopService("iptables")
  {
    MissingChar(p, "debian", 'b');
    MissingChar(p, "fedora", 'f');
    MissingChar(p, "el-7", '7');
    ContainsWitness(p, "el-", 0);
  }

  /** A systemd CentOS 7 still gets its iptables service stopped. */
  lemma Centos7StopsIptables(p: string)
    requires p == "centos-7"
    ensures ChooseFirewall(Some(p)) == StopService("iptables")
  {
    MissingChar(p, "debian", 'b');
    MissingChar(p, "fedora", 'f');
    MissingChar(p, "el-7", 'l');
    ContainsWitness(p, "centos", 0);
  }

  lemma UbuntuStopsUfw(p: string)
    requires p == "ubuntu-2004"
    ensures ChooseFirewall(Some(p)) == StopService("ufw")
  {
    MissingChar(p, "debian", 'd');
    MissingChar(p, "fedora", 'f');
    MissingChar(p, "el-7", 'l');
    MissingChar(p, "el-", 'l');
    MissingChar(p, "centos", 'c');
    ContainsWitness(p, "ubuntu", 0);
  }

  lemma OtherPlatformDoesNothing(p: string)
    requires p == "solaris-11"
    ensures ChooseFirewall(Some(p)) == NoAction
  {
    MissingChar(p, "debian", 'e');
    MissingChar(p, "fedora", 'e');
    MissingChar(p, "el-7", 'e');
    MissingChar(p, "el-", 'e');
    MissingChar(p, "centos", 'c');
    MissingChar(p, "ubuntu", 'b');
  }
}
