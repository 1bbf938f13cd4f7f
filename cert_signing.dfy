/** Re-signing the agents' certificates (puppet_utils.rb:210-276): the
    fixed sequence of commands sign_agent_cert_for runs on the master and
    the agents. `respond` gives the output of a command on a host. */
module CertSigning {
  import opened RubyText
  import opened Harness
  import opened Collections
  import opened VersionProbe

  const StopServerCommand := "puppet resource service puppetserver ensure=stopped"
  const SsldirCommand := "puppet agent --configprint ssldir"
  const FqdnCommand := "facter fqdn"
  const HostnameCommand := "hostname"
  const CaSetupCommand := "puppetserver ca setup"
  const CaSignCommand := "puppetserver ca sign --all"
  const CertSignCommand := "puppet cert sign --all"

  /** Empty the ssldir, keeping the directory itself. */
  function WipeCommand(ssldir: string): string { "rm -rf " + ssldir + "/*" }

  function AgentTestCommand(master: Host): string { "puppet agent --test --server " + master.name }

  /** `hosts_with_role(hosts, :master).length`: the number of positions
      among the hosts whose roles include master. */
  function MastersAmong(hosts: seq<Host>): (n: nat)
    ensures n == |set i | 0 <= i < |hosts| && "master" in hosts[i].roles|
    decreases |hosts|
  {
    if hosts == [] then 0
    else
      MasterIndicesSnoc(hosts);
      MastersAmong(hosts[..|hosts| - 1]) + (if "master" in hosts[|hosts| - 1].roles then 1 else 0)
  }

  /** The master positions of a list: those of all but the last host, and
      the last one if it is a master. */
  lemma MasterIndicesSnoc(hosts: seq<Host>)
    requires hosts != []
    ensures var init, n := hosts[..|hosts| - 1], |hosts| - 1;
      |set i | 0 <= i < |hosts| && "master" in hosts[i].roles| ==
      |set i | 0 <= i < |init| && "master" in init[i].roles| + (if "master" in hosts[n].roles then 1 else 0)
  {
    var init, n := hosts[..|hosts| - 1], |hosts| - 1;
    var all := set i | 0 <= i < |hosts| && "master" in hosts[i].roles;
    var pre := set i | 0 <= i < |init| && "master" in init[i].roles;
    if "master" in hosts[n].roles {
      assert all == pre + {n};
      assert n !in pre;
    } else {
      assert all == pre;
    }
  }

  /** Exactly one master: one position holds a master and no other does. */
  lemma OneMaster(hosts: seq<Host>)
    ensures MastersAmong(hosts) == 1 <==>
      exists k :: 0 <= k < |hosts| && "master" in hosts[k].roles &&
        forall j :: 0 <= j < |hosts| && j != k ==> "master" !in hosts[j].roles
  {
    if MastersAmong(hosts) == 1 {
      SoleMasterOfCount(hosts);
    }
    if exists k :: 0 <= k < |hosts| && "master" in hosts[k].roles &&
        forall j :: 0 <= j < |hosts| && j != k ==> "master" !in hosts[j].roles {
      var k :| 0 <= k < |hosts| && "master" in hosts[k].roles &&
        forall j :: 0 <= j < |hosts| && j != k ==> "master" !in hosts[j].roles;
      CountOfSoleMaster(hosts, k);
    }
  }

  lemma SoleMasterOfCount(hosts: seq<Host>)
    requires MastersAmong(hosts) == 1
    ensures exists k :: 0 <= k < |hosts| && "master" in hosts[k].roles &&
               forall j :: 0 <= j < |hosts| && j != k ==> "master" !in hosts[j].roles
  {
    var ms := set i | 0 <= i < |hosts| && "master" in hosts[i].roles;
    var k :| k in ms;
    assert ms - {k} == {} by {
      assert |ms - {k}| == 0;
    }
    forall j | 0 <= j < |hosts| && j != k ensures "master" !in hosts[j].roles {
      assert j !in ms - {k};
    }
  }

  lemma CountOfSoleMaster(hosts: seq<Host>, k: nat)
    requires k < |hosts| && "master" in hosts[k].roles
    requires forall j :: 0 <= j < |hosts| && j != k ==> "master" !in hosts[j].roles
    ensures MastersAmong(hosts) == 1
  {
    var ms := set i | 0 <= i < |hosts| && "master" in hosts[i].roles;
    assert ms == {k};
  }

  /** Puppet 6 and later sign through the intermediate CA. */
  predicate UsesIntermediateCa(version: string) {
    !VersionIsLess(version, V599)
  }

  /** The ssldir lookup and the wipe, host by host, the master included. */
  function WipeCalls(hosts: seq<Host>, respond: (Host, string) -> Output): (r: seq<Call>)
    ensures |r| == 2 * |hosts|
    decreases |hosts|
  {
    if hosts == [] then []
    else
      var h := hosts[|hosts| - 1];
      WipeCalls(hosts[..|hosts| - 1], respond) +
        [Run(h, SsldirCommand, Zero), Run(h, WipeCommand(Strip(respond(h, SsldirCommand).stdout)), Zero)]
  }

  lemma WipeCallsSnoc(hosts: seq<Host>, respond: (Host, string) -> Output, i: nat)
    requires i < |hosts|
    ensures WipeCalls(hosts[..i + 1], respond) == WipeCalls(hosts[..i], respond) +
      [Run(hosts[i], SsldirCommand, Zero), Run(hosts[i], WipeCommand(Strip(respond(hosts[i], SsldirCommand).stdout)), Zero)]
  {
    assert hosts[..i + 1][..i] == hosts[..i];
  }

  /** One `agent --test` pass: every host but the master, in order. */
  function AgentPass(hosts: seq<Host>, master: Host, accept: Accept): seq<Call>
    decreases |hosts|
  {
    if hosts == [] then []
    else
      var h := hosts[|hosts| - 1];
      AgentPass(hosts[..|hosts| - 1], master, accept) +
        (if h == master then [] else [Run(h, AgentTestCommand(master), accept)])
  }

  lemma AgentPassSnoc(hosts: seq<Host>, master: Host, accept: Accept, i: nat)
    requires i < |hosts|
    ensures AgentPass(hosts[..i + 1], master, accept) ==
      AgentPass(hosts[..i], master, accept) + (if hosts[i] == master then [] else [Run(hosts[i], AgentTestCommand(master), accept)])
  {
    assert hosts[..i + 1][..i] == hosts[..i];
  }

  /** The hosts other than the master, in order. */
  function Agents(hosts: seq<Host>, master: Host): (r: seq<Host>)
    ensures forall h :: h in r <==> h in hosts && h != master
    decreases |hosts|
  {
    if hosts == [] then []
    else Agents(hosts[..|hosts| - 1], master) + (if hosts[|hosts| - 1] == master then [] else [hosts[|hosts| - 1]])
  }

  /** Every occurrence of the master is dropped and every other host is
      kept as often as it occurs. */
  lemma {:induction false} AgentsCount(hosts: seq<Host>, master: Host)
    ensures var r := Agents(hosts, master);
      && multiset(r)[master] == 0
      && (forall h :: h != master ==> multiset(r)[h] == multiset(hosts)[h])
      && |r| + multiset(hosts)[master] == |hosts|
    decreases |hosts|
  {
    if hosts != [] {
      var init, last := hosts[..|hosts| - 1], hosts[|hosts| - 1];
      AgentsCount(init, master);
      assert hosts == init + [last];
      assert multiset(hosts) == multiset(init) + multiset{last};
    }
  }

  /** Dropping the master keeps the order: the agents of two runs of hosts
      are the agents of the first, then those of the second. */
  lemma {:induction false} AgentsAppend(a: seq<Host>, b: seq<Host>, master: Host)
    ensures Agents(a + b, master) == Agents(a, master) + Agents(b, master)
    decreases |b|
  {
    if b == [] {
      assert a + b == a;
    } else {
      var b', last := b[..|b| - 1], b[|b| - 1];
      var tail := if last == master then [] else [last];
      AgentsAppend(a, b', master);
      assert (a + b)[..|a + b| - 1] == a + b';
      assert Agents(a + b, master) == Agents(a + b', master) + tail;
      assert Agents(b, master) == Agents(b', master) + tail;
    }
  }

  /** One host is an agent exactly when it is not the master. */
  lemma AgentsOfOne(h: Host, master: Host)
    ensures Agents([h], master) == if h == master then [] else [h]
  {
    assert [h][..0] == [];
  }

  /** The dns_alt_names given to the master: puppet, its hostname, its fqdn. */
  function DnsAltNames(hostname: string, fqdn: string): string { "puppet," + hostname + "," + fqdn }

  /** The version `puppetserver --version` reports on the master. */
  function ServerVersion(master: Host, respond: (Host, string) -> Output): Option<string> {
    PuppetserverVersionFrom(respond(master, ServerVersionCommand))
  }

  /** What follows a successful probe: the stop, the ssldir wipes, the
      master's names and the CA setup. */
  function Prepare(hosts: seq<Host>, master: Host, respond: (Host, string) -> Output, ica: bool): seq<Call> {
    (if master.useServiceScripts then [Run(master, StopServerCommand, Zero)] else []) +
    WipeCalls(hosts, respond) +
    [Run(master, FqdnCommand, Zero), Run(master, HostnameCommand, Zero)] +
    (if ica then [Run(master, CaSetupCommand, Zero)] else [])
  }

  /** Everything before puppetserver is started again: the version probe
      and the preparation. */
  function BeforeStart(hosts: seq<Host>, master: Host, respond: (Host, string) -> Output, ica: bool): seq<Call> {
    [Run(master, ServerVersionCommand, AnyCode)] + Prepare(hosts, master, respond, ica)
  }

  /** Entering with_puppet_running_on with the master's names. */
  function StartOn(master: Host, respond: (Host, string) -> Output): Call {
    var fqdn := Strip(respond(master, FqdnCommand).stdout);
    var hostname := Strip(respond(master, HostnameCommand).stdout);
    StartPuppet(master, DnsAltNames(hostname, fqdn), fqdn)
  }

  /** Signing all requests, through the CA chosen by the mode. */
  function SignCall(master: Host, ica: bool): Call {
    Run(master, if ica then CaSignCommand else CertSignCommand, Codes({0, 24}))
  }

  /** What runs while puppetserver is up: the two passes around the signing. */
  function WhileRunning(hosts: seq<Host>, master: Host, ica: bool): seq<Call> {
    AgentPass(hosts, master, Codes({1})) + [SignCall(master, ica)] + AgentPass(hosts, master, Codes({0, 2}))
  }

  /** From the start on: the passes and the signing, then puppetserver stopped. */
  function AfterStart(hosts: seq<Host>, master: Host, ica: bool): seq<Call> {
    WhileRunning(hosts, master, ica) + [StopPuppet(master)]
  }

  /** What sign_agent_cert_for(hosts) does once the probe on the master has
      reported `version`. */
  function SignWith(hosts: seq<Host>, master: Host, respond: (Host, string) -> Output, version: Option<string>): Trace {
    var n := MastersAmong(hosts);
    if n != 1 then Trace(Fail(MasterCount(n)), [])
    else if version.None? then Trace(Fail(PuppetserverMissing(master.name)), [Run(master, ServerVersionCommand, AnyCode)])
    else
      var ica := UsesIntermediateCa(version.value);
      Trace(Pass, BeforeStart(hosts, master, respond, ica) + [StartOn(master, respond)] + AfterStart(hosts, master, ica))
  }

  /** sign_agent_cert_for(hosts) with `master` as the master. */
  function SignAgentCert(hosts: seq<Host>, master: Host, respond: (Host, string) -> Output): Trace {
    SignWith(hosts, master, respond, ServerVersion(master, respond))
  }

  /** The calls of a successful run: the probe, then everything after it. */
  lemma SignWithPass(hosts: seq<Host>, master: Host, respond: (Host, string) -> Output, version: Option<string>)
    requires MastersAmong(hosts) == 1 && version.Some?
    ensures var ica := UsesIntermediateCa(version.value);
      SignWith(hosts, master, respond, version) ==
        Trace(Pass, [Run(master, ServerVersionCommand, AnyCode)] +
          (Prepare(hosts, master, respond, ica) + [StartOn(master, respond)] + AfterStart(hosts, master, ica)))
  {
    var ica := UsesIntermediateCa(version.value);
    Regroup([Run(master, ServerVersionCommand, AnyCode)], Prepare(hosts, master, respond, ica),
      [StartOn(master, respond)], AfterStart(hosts, master, ica));
  }

  lemma Regroup<T>(a: seq<T>, b: seq<T>, c: seq<T>, d: seq<T>)
    ensures a + b + c + d == a + (b + c + d)
  {
  }

  // ------------------------------------------------------------------
  // Preconditions

  /** Unless exactly one of the hosts is a master, it raises before any command. */
  lemma SignNeedsOneMaster(hosts: seq<Host>, master: Host, respond: (Host, string) -> Output)
    ensures SignAgentCert(hosts, master, respond).calls == [] <==> MastersAmong(hosts) != 1
    ensures MastersAmong(hosts) != 1 ==>
      SignAgentCert(hosts, master, respond).outcome == Fail(MasterCount(MastersAmong(hosts)))
  {
  }

  /** Without a puppetserver version it raises right after the probe. */
  lemma SignNeedsServer(hosts: seq<Host>, master: Host, respond: (Host, string) -> Output)
    requires MastersAmong(hosts) == 1
    ensures SignAgentCert(hosts, master, respond).outcome.Pass? <==>
      ServerVersion(master, respond).Some?
    ensures ServerVersion(master, respond).None? ==>
      SignAgentCert(hosts, master, respond) ==
        Trace(Fail(PuppetserverMissing(master.name)), [Run(master, ServerVersionCommand, AnyCode)])
    ensures respond(master, ServerVersionCommand).exitCode != 0 ==>
      SignAgentCert(hosts, master, respond).outcome == Fail(PuppetserverMissing(master.name))
  {
  }

  // ------------------------------------------------------------------
  // The intermediate-CA threshold

  /** A dotted triple reads field by field as its three numbers. */
  lemma TripleFields(v: string)
    requires IsTriple(v)
    ensures var fs := Fields(v, '.');
      VersionFields(v) == [DecimalValue(fs[0]), DecimalValue(fs[1]), DecimalValue(fs[2])]
  {
    var fs := Fields(v, '.');
    assert Split(v, '.') == fs;
    ToIOfDigits(fs[0]);
    ToIOfDigits(fs[1]);
    ToIOfDigits(fs[2]);
  }

  /** For the x.y.z that puppetserver reports, the intermediate CA is used
      exactly from 5.99.0 on. */
  lemma IntermediateCaThreshold(v: string)
    requires IsTriple(v)
    ensures var fs := Fields(v, '.');
      var x, y := DecimalValue(fs[0]), DecimalValue(fs[1]);
      UsesIntermediateCa(v) <==> x > 5 || (x == 5 && y >= 99)
  {
    var fs := Fields(v, '.');
    TripleFields(v);
    LessThan599(v, DecimalValue(fs[0]), DecimalValue(fs[1]), DecimalValue(fs[2]));
  }

  // ------------------------------------------------------------------
  // The agent passes

  /** A pass runs `agent --test` once on each host but the master, in the
      order of the hosts, with the given exit codes. */
  lemma {:induction false} AgentPassIsAgents(hosts: seq<Host>, master: Host, accept: Accept)
    ensures var p, a := AgentPass(hosts, master, accept), Agents(hosts, master);
      |p| == |a| && forall i :: 0 <= i < |p| ==> p[i] == Run(a[i], AgentTestCommand(master), accept)
    decreases |hosts|
  {
    if hosts != [] {
      AgentPassIsAgents(hosts[..|hosts| - 1], master, accept);
    }
  }

  /** A pass makes one call per host, less one per occurrence of the master:
      one master and two agents give two calls. */
  lemma PassLength(hosts: seq<Host>, master: Host, accept: Accept)
    ensures |AgentPass(hosts, master, accept)| == |hosts| - multiset(hosts)[master]
  {
    AgentPassIsAgents(hosts, master, accept);
    AgentsCount(hosts, master);
  }

  /** No call of a pass goes to the master. */
  lemma PassSkipsMaster(hosts: seq<Host>, master: Host, accept: Accept, c: Call)
    requires c in AgentPass(hosts, master, accept)
    ensures c.Run? && c.host != master && c.host in hosts && c.accept == accept
  {
    var p, a := AgentPass(hosts, master, accept), Agents(hosts, master);
    AgentPassIsAgents(hosts, master, accept);
    var i :| 0 <= i < |p| && p[i] == c;
    assert a[i] in a;
  }

  /** The ssldir of host i is looked up and emptied at calls 2i and 2i+1. */
  lemma {:induction false} WipeCallsAt(hosts: seq<Host>, respond: (Host, string) -> Output, i: nat)
    requires i < |hosts|
    ensures var w := WipeCalls(hosts, respond);
      && w[2 * i] == Run(hosts[i], SsldirCommand, Zero)
      && w[2 * i + 1] == Run(hosts[i], WipeCommand(Strip(respond(hosts[i], SsldirCommand).stdout)), Zero)
    decreases |hosts|
  {
    if i < |hosts| - 1 {
      WipeCallsAt(hosts[..|hosts| - 1], respond, i);
    }
  }

  // ------------------------------------------------------------------
  // The whole sequence

  /** The ssldir of every host passed in is emptied before the start; the
      master's is among them when the master is one of the hosts. */
  lemma WipedBeforeStart(hosts: seq<Host>, master: Host, respond: (Host, string) -> Output, ica: bool, i: nat)
    requires i < |hosts|
    ensures Run(hosts[i], WipeCommand(Strip(respond(hosts[i], SsldirCommand).stdout)), Zero)
      in BeforeStart(hosts, master, respond, ica)
  {
    var w := WipeCalls(hosts, respond);
    WipeCallsAt(hosts, respond, i);
    assert w[2 * i + 1] in w;
    assert w[2 * i + 1] in Prepare(hosts, master, respond, ica);
  }

  /** When it passes: every host's ssldir is emptied before puppetserver is
      started; once started, the first pass (exit code 1 accepted), the
      signing (0 or 24; `puppetserver ca sign` in intermediate-CA mode,
      `puppet cert sign` otherwise) and the second pass (0 or 2) follow, and
      puppetserver is stopped at the end. */
  lemma SignSequence(hosts: seq<Host>, master: Host, respond: (Host, string) -> Output, version: Option<string>)
    requires SignWith(hosts, master, respond, version).outcome.Pass?
    ensures var cs := SignWith(hosts, master, respond, version).calls;
      var ica := UsesIntermediateCa(version.value);
      exists s ::
        && 0 <= s < |cs|
        && cs[s] == StartOn(master, respond)
        && (forall i :: 0 <= i < |hosts| ==>
              Run(hosts[i], WipeCommand(Strip(respond(hosts[i], SsldirCommand).stdout)), Zero) in cs[..s])
        && cs[s + 1..] ==
             AgentPass(hosts, master, Codes({1})) +
             [Run(master, if ica then CaSignCommand else CertSignCommand, Codes({0, 24}))] +
             AgentPass(hosts, master, Codes({0, 2})) +
             [StopPuppet(master)]
  {
    var cs := SignWith(hosts, master, respond, version).calls;
    var ica := UsesIntermediateCa(version.value);
    var before := BeforeStart(hosts, master, respond, ica);
    var s := |before|;
    assert cs == before + [StartOn(master, respond)] + AfterStart(hosts, master, ica);
    Around(before, StartOn(master, respond), AfterStart(hosts, master, ica));
    assert cs[..s] == before;
    forall i | 0 <= i < |hosts|
      ensures Run(hosts[i], WipeCommand(Strip(respond(hosts[i], SsldirCommand).stdout)), Zero) in cs[..s]
    {
      WipedBeforeStart(hosts, master, respond, ica, i);
    }
    assert cs[s] == StartOn(master, respond);
  }

  lemma Around<T>(a: seq<T>, x: T, b: seq<T>)
    ensures (a + [x] + b)[..|a|] == a && (a + [x] + b)[|a|] == x && (a + [x] + b)[|a| + 1..] == b
  {
  }

  /** The wipe runs only, on one of the hosts, the ssldir lookup and the
      `rm -rf` of the contents of the ssldir that lookup printed. */
  lemma {:induction false} NotInWipe(hosts: seq<Host>, respond: (Host, string) -> Output, c: Call)
    requires c in WipeCalls(hosts, respond)
    ensures c.Run? && c.host in hosts && c.accept == Zero
    ensures c.command == SsldirCommand || c.command == WipeCommand(Strip(respond(c.host, SsldirCommand).stdout))
    decreases |hosts|
  {
    var init := hosts[..|hosts| - 1];
    var h := hosts[|hosts| - 1];
    var wipe := WipeCommand(Strip(respond(h, SsldirCommand).stdout));
    assert WipeCalls(hosts, respond) == WipeCalls(init, respond) + [Run(h, SsldirCommand, Zero), Run(h, wipe, Zero)];
    if c in WipeCalls(init, respond) {
      NotInWipe(init, respond, c);
    }
  }

  lemma WipeStartsWithR(d: string)
    ensures WipeCommand(d)[0] == 'r'
  {
  }

  /** `puppetserver ca setup` is run exactly in intermediate-CA mode. */
  lemma CaSetupOnlyInIntermediateMode(hosts: seq<Host>, master: Host, respond: (Host, string) -> Output, version: Option<string>)
    requires SignWith(hosts, master, respond, version).outcome.Pass?
    ensures Run(master, CaSetupCommand, Zero) in SignWith(hosts, master, respond, version).calls <==>
      UsesIntermediateCa(version.value)
  {
    SetupIffMode(hosts, master, respond, UsesIntermediateCa(version.value));
  }

  lemma SetupIffMode(hosts: seq<Host>, master: Host, respond: (Host, string) -> Output, ica: bool)
    ensures var cs := BeforeStart(hosts, master, respond, ica) + [StartOn(master, respond)] + AfterStart(hosts, master, ica);
      Run(master, CaSetupCommand, Zero) in cs <==> ica
  {
    var setupRun := Run(master, CaSetupCommand, Zero);
    var before := BeforeStart(hosts, master, respond, ica);
    var tail := [StartOn(master, respond)] + AfterStart(hosts, master, ica);
    assert before + [StartOn(master, respond)] + AfterStart(hosts, master, ica) == before + tail;
    if ica {
      assert before[|before| - 1] == setupRun;
      assert (before + tail)[|before| - 1] == setupRun;
    } else {
      SetupNotBefore(hosts, master, respond);
      SetupNotWhileRunning(hosts, master, ica);
      assert setupRun !in tail;
    }
  }

  lemma SetupNotBefore(hosts: seq<Host>, master: Host, respond: (Host, string) -> Output)
    ensures Run(master, CaSetupCommand, Zero) !in BeforeStart(hosts, master, respond, false)
  {
    var setupRun := Run(master, CaSetupCommand, Zero);
    var stop := if master.useServiceScripts then [Run(master, StopServerCommand, Zero)] else [];
    var ids := [Run(master, FqdnCommand, Zero), Run(master, HostnameCommand, Zero)];
    SetupDiffersBefore();
    if setupRun in WipeCalls(hosts, respond) {
      NotInWipe(hosts, respond, setupRun);
      WipeStartsWithR(Strip(respond(master, SsldirCommand).stdout));
    }
    assert Prepare(hosts, master, respond, false) == stop + WipeCalls(hosts, respond) + ids;
  }

  lemma SetupNotWhileRunning(hosts: seq<Host>, master: Host, ica: bool)
    requires !ica
    ensures Run(master, CaSetupCommand, Zero) !in WhileRunning(hosts, master, ica)
  {
    var setupRun := Run(master, CaSetupCommand, Zero);
    if setupRun in AgentPass(hosts, master, Codes({1})) { PassSkipsMaster(hosts, master, Codes({1}), setupRun); }
    if setupRun in AgentPass(hosts, master, Codes({0, 2})) { PassSkipsMaster(hosts, master, Codes({0, 2}), setupRun); }
    SetupDiffersSign();
  }

  lemma SetupDiffersBefore()
    ensures CaSetupCommand != StopServerCommand && CaSetupCommand != SsldirCommand
    ensures CaSetupCommand != ServerVersionCommand && CaSetupCommand != FqdnCommand
    ensures CaSetupCommand != HostnameCommand && CaSetupCommand[0] != 'r'
  {
    assert |CaSetupCommand| == 21;
    assert |StopServerCommand| != 21 && |SsldirCommand| != 21 && |ServerVersionCommand| != 21;
    assert |FqdnCommand| != 21 && |HostnameCommand| != 21;
  }

  lemma SetupDiffersSign()
    ensures CaSetupCommand != CertSignCommand
  {
    assert |CertSignCommand| != |CaSetupCommand|;
  }
}
