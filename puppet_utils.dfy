/** The PuppetUtils helpers as a stateful object (puppet_utils.rb): every
    helper records what it asks of the test harness in `log`, in order, and
    each is proved to make exactly the calls, to end exactly as, and to
    leave the hosts exactly as, the specification functions of the other
    modules say.

    The helper object's surroundings are fixed at construction: `handlers`
    maps the handler names it responds to onto the updates they make to a
    host, `echo` stands for `echo_on(host, value)`, and `respond` gives the
    output of a command run on a host. */
module PuppetUtils {
  import opened RubyText
  import opened Harness
  import opened HostTypes
  import opened VersionProbe
  import opened PuppetPath
  import opened Defaults
  import opened CertSigning
  import opened Firewall

  /** The log after one more host's calls. */
  lemma Extend(start: seq<Call>, done: seq<Call>, step: seq<Call>, before: seq<Call>, after: seq<Call>)
    requires before == start + done && after == before + step
    ensures after == start + (done + step)
  {
  }

  class PuppetUtils {
    const handlers: HandlerMap
    const echo: (Host, string) -> string
    const respond: (Host, string) -> Output
    /** The calls made on the harness so far. */
    var log: seq<Call>

    constructor (handlers: HandlerMap, echo: (Host, string) -> string, respond: (Host, string) -> Output)
      ensures this.handlers == handlers && this.echo == echo && this.respond == respond
      ensures log == []
    {
      this.handlers := handlers;
      this.echo := echo;
      this.respond := respond;
      log := [];
    }

    // ----------------------------------------------------------------
    // PATH

    /** The body of add_puppet_paths_on, or of remove_puppet_paths_on, for
        one host. */
    method EditPuppetPathOn(h: Host, e: Edit)
      modifies this
      ensures log == old(log) + HostPathCalls(h, PathOf(echo), e)
    {
      var puppetPath := ConstructPuppetPath(h, echo);
      if e == AddPath {
        log := log + [AddEnvVar(h, "PATH", puppetPath)];
      } else {
        log := log + [DeleteEnvVar(h, "PATH", puppetPath)];
      }
      log := log + [AddEnvVar(h, "PATH", "PATH")];
    }

    /** add_puppet_paths_on(hosts) and remove_puppet_paths_on(hosts). */
    method EditPuppetPathsOn(hosts: seq<Host>, e: Edit)
      modifies this
      ensures log == old(log) + PathCalls(hosts, PathOf(echo), e)
    {
      var i := 0;
      while i < |hosts|
        invariant 0 <= i <= |hosts|
        invariant log == old(log) + PathCalls(hosts[..i], PathOf(echo), e)
      {
        ghost var before := log;
        EditPuppetPathOn(hosts[i], e);
        Extend(old(log), PathCalls(hosts[..i], PathOf(echo), e), HostPathCalls(hosts[i], PathOf(echo), e), before, log);
        PathCallsSnoc(hosts, PathOf(echo), e, i);
        i := i + 1;
      }
      assert hosts[..i] == hosts;
    }

    /** add_puppet_paths_on(hosts) */
    method AddPuppetPathsOn(hosts: seq<Host>)
      modifies this
      ensures log == old(log) + PathCalls(hosts, PathOf(echo), AddPath)
    {
      EditPuppetPathsOn(hosts, AddPath);
    }

    /** remove_puppet_paths_on(hosts) */
    method RemovePuppetPathsOn(hosts: seq<Host>)
      modifies this
      ensures log == old(log) + PathCalls(hosts, PathOf(echo), RemovePath)
    {
      EditPuppetPathsOn(hosts, RemovePath);
    }

    // ----------------------------------------------------------------
    // Defaults

    /** Calling a handler directly; a missing one raises NoMethodError.
        The host is returned as the handler left it. */
    method CallDirect(m: string, h: Host) returns (r: Outcome, after: Host)
      modifies this
      ensures r == Direct(m, h, handlers).trace.outcome
      ensures after == Direct(m, h, handlers).host
      ensures log == old(log) + Direct(m, h, handlers).trace.calls
    {
      if m in handlers {
        log := log + [Send(m, h)];
        return Pass, handlers[m](h);
      }
      return Fail(NoMethod(m)), h;
    }

    /** The body of remove_defaults_on for one host; `all` is the list
        passed in as the hosts before this one left it. */
    method RemoveDefaultsOnHost(h: Host, all: seq<Host>) returns (r: Outcome, after: Host)
      modifies this
      ensures r == RemoveOne(h, all, handlers, PathOf(echo)).trace.outcome
      ensures after == RemoveOne(h, all, handlers, PathOf(echo)).host
      ensures log == old(log) + RemoveOne(h, all, handlers, PathOf(echo)).trace.calls
    {
      if "type" !in h.attrs {
        return Pass, h;
      }
      var hostType := TypeName(NormalizeType(h.attrs["type"]));
      RemovePuppetPathsOn(all);
      var m := "remove_" + hostType + "_defaults_on";
      if m !in handlers {
        return Fail(MissingRemoveHandler(hostType, h.name, m)), h;
      }
      log := log + [Send(m, h)];
      after := handlers[m](h);
      if after.aioVersion {
        r, after := CallDirect("remove_aio_defaults_on", after);
        return;
      }
      return Pass, after;
    }

    /** remove_defaults_on(hosts): host by host until one raises. The hosts
        are returned as the run left them. */
    method RemoveDefaultsOn(hosts: seq<Host>) returns (r: Outcome, after: seq<Host>)
      modifies this
      ensures r == RemoveDefaults(hosts, handlers, PathOf(echo)).trace.outcome
      ensures after == RemoveDefaults(hosts, handlers, PathOf(echo)).hosts
      ensures log == old(log) + RemoveDefaults(hosts, handlers, PathOf(echo)).trace.calls
    {
      ghost var step := RemoveStep(handlers, PathOf(echo));
      after := hosts;
      var i := 0;
      while i < |hosts|
        invariant 0 <= i <= |hosts|
        invariant BlockOn(hosts, step, i).trace.outcome == Pass
        invariant after == BlockOn(hosts, step, i).hosts
        invariant log == old(log) + BlockOn(hosts, step, i).trace.calls
      {
        ghost var before := log;
        var o, h := RemoveDefaultsOnHost(after[i], after);
        RemoveStepIs(hosts, handlers, PathOf(echo), i);
        BlockAdvance(hosts, step, i, old(log), before, log, o, h);
        after := after[i := h];
        if o.Fail? {
          return o, after;
        }
        i := i + 1;
      }
      return Pass, after;
    }

    /** The body of configure_defaults_on(hosts, type) for one host. */
    method ConfigureDefaultsOnHost(h: Host, typeName: string) returns (r: Outcome, after: Host)
      modifies this
      ensures r == ConfigureOne(h, typeName, handlers, PathOf(echo)).trace.outcome
      ensures after == ConfigureOne(h, typeName, handlers, PathOf(echo)).host
      ensures log == old(log) + ConfigureOne(h, typeName, handlers, PathOf(echo)).trace.calls
    {
      var cleared;
      r, cleared := RemoveDefaultsOn([h]);
      after := cleared[0];
      if r.Fail? {
        return;
      }
      var m := "add_" + typeName + "_defaults_on";
      if m !in handlers {
        return Fail(MissingAddHandler(typeName, after.name, m)), after;
      }
      log := log + [Send(m, after)];
      after := handlers[m](after);
      AddPuppetPathsOn([after]);
      return Pass, after;
    }

    /** configure_defaults_on(hosts, type). The hosts are returned as the
        run left them. */
    method ConfigureDefaultsOn(hosts: seq<Host>, typeName: string) returns (r: Outcome, after: seq<Host>)
      modifies this
      ensures r == ConfigureDefaults(hosts, typeName, handlers, PathOf(echo)).trace.outcome
      ensures after == ConfigureDefaults(hosts, typeName, handlers, PathOf(echo)).hosts
      ensures log == old(log) + ConfigureDefaults(hosts, typeName, handlers, PathOf(echo)).trace.calls
    {
      ghost var step := ConfigureStep(typeName, handlers, PathOf(echo));
      after := hosts;
      var i := 0;
      while i < |hosts|
        invariant 0 <= i <= |hosts|
        invariant BlockOn(hosts, step, i).trace.outcome == Pass
        invariant after == BlockOn(hosts, step, i).hosts
        invariant log == old(log) + BlockOn(hosts, step, i).trace.calls
      {
        ghost var before := log;
        var o, h := ConfigureDefaultsOnHost(after[i], typeName);
        ConfigureStepIs(hosts, typeName, handlers, PathOf(echo), i);
        BlockAdvance(hosts, step, i, old(log), before, log, o, h);
        after := after[i := h];
        if o.Fail? {
          return o, after;
        }
        i := i + 1;
      }
      return Pass, after;
    }

    /** The type branch of configure_type_defaults_on for one host; the flag
        is the `has_defaults` it sets. */
    method AddTypeDefaultsOnHost(h: Host) returns (r: Outcome, hasDefaults: bool, after: Host)
      modifies this
      ensures r == TypedStep(h, handlers).trace.outcome
      ensures after == TypedStep(h, handlers).host
      ensures log == old(log) + TypedStep(h, handlers).trace.calls
      ensures hasDefaults == TypeBranch(h)
    {
      hasDefaults, after := false, h;
      if "type" in h.attrs {
        var hostType := NormalizeType(h.attrs["type"]);
        if hostType.Some? && hostType != Some(Aio) {
          hasDefaults := true;
          var m := "add_" + hostType.value.Name() + "_defaults_on";
          if m !in handlers {
            return Fail(MissingAddHandler(hostType.value.Name(), h.name, m)), hasDefaults, after;
          }
          log := log + [Send(m, h)];
          after := handlers[m](h);
        }
      }
      return Pass, hasDefaults, after;
    }

    /** The body of configure_type_defaults_on(hosts) for one host. */
    method ConfigureTypeDefaultsOnHost(h: Host) returns (r: Outcome, after: Host)
      modifies this
      ensures r == ConfigureTypeOne(h, handlers, PathOf(echo)).trace.outcome
      ensures after == ConfigureTypeOne(h, handlers, PathOf(echo)).host
      ensures log == old(log) + ConfigureTypeOne(h, handlers, PathOf(echo)).trace.calls
    {
      var hasDefaults;
      r, hasDefaults, after := AddTypeDefaultsOnHost(h);
      if r.Fail? {
        return;
      }
      ghost var typed := TypedStep(h, handlers);
      ghost var typedLog := log;
      if after.aioVersion {
        r, after := CallDirect("add_aio_defaults_on", after);
        if r.Fail? {
          return;
        }
        hasDefaults := true;
      }
      ghost var aio := AioStep(typed.host, handlers);
      Extend(old(log), typed.trace.calls, aio.trace.calls, typedLog, log);
      ghost var branched := log;
      if hasDefaults {
        AddPuppetPathsOn([after]);
      }
      Extend(old(log), typed.trace.calls + aio.trace.calls, TypePathsStep(hasDefaults, after, PathOf(echo)).calls, branched, log);
      return Pass, after;
    }

    /** configure_type_defaults_on(hosts). The hosts are returned as the run
        left them. */
    method ConfigureTypeDefaultsOn(hosts: seq<Host>) returns (r: Outcome, after: seq<Host>)
      modifies this
      ensures r == ConfigureTypeDefaults(hosts, handlers, PathOf(echo)).trace.outcome
      ensures after == ConfigureTypeDefaults(hosts, handlers, PathOf(echo)).hosts
      ensures log == old(log) + ConfigureTypeDefaults(hosts, handlers, PathOf(echo)).trace.calls
    {
      ghost var step := ConfigureTypeStep(handlers, PathOf(echo));
      after := hosts;
      var i := 0;
      while i < |hosts|
        invariant 0 <= i <= |hosts|
        invariant BlockOn(hosts, step, i).trace.outcome == Pass
        invariant after == BlockOn(hosts, step, i).hosts
        invariant log == old(log) + BlockOn(hosts, step, i).trace.calls
      {
        ghost var before := log;
        var o, h := ConfigureTypeDefaultsOnHost(after[i]);
        ConfigureTypeStepIs(hosts, handlers, PathOf(echo), i);
        BlockAdvance(hosts, step, i, old(log), before, log, o, h);
        after := after[i := h];
        if o.Fail? {
          return o, after;
        }
        i := i + 1;
      }
      return Pass, after;
    }

    // ----------------------------------------------------------------
    // Version probes

    /** puppet_agent_version_on(host) */
    method PuppetAgentVersionOn(h: Host) returns (r: Option<string>)
      modifies this
      ensures r == AgentVersionFrom(respond(h, AgentVersionCommand))
      ensures log == old(log) + [Run(h, AgentVersionCommand, AnyCode)]
    {
      log := log + [Run(h, AgentVersionCommand, AnyCode)];
      var result := respond(h, AgentVersionCommand);
      if result.exitCode == 0 {
        return AgentVersionFrom(result);
      }
      return None;
    }

    /** puppetserver_version_on(host) */
    method PuppetserverVersionOn(h: Host) returns (r: Option<string>)
      modifies this
      ensures r == ServerVersion(h, respond)
      ensures log == old(log) + [Run(h, ServerVersionCommand, AnyCode)]
    {
      log := log + [Run(h, ServerVersionCommand, AnyCode)];
      var result := respond(h, ServerVersionCommand);
      if result.exitCode == 0 {
        return LastMatch(Strip(result.stdout));
      }
      return None;
    }

    // ----------------------------------------------------------------
    // Certificate signing

    /** One `agent --test` pass over the hosts, skipping the master. */
    method AgentPassOn(hosts: seq<Host>, master: Host, accept: Accept)
      modifies this
      ensures log == old(log) + AgentPass(hosts, master, accept)
    {
      var i := 0;
      while i < |hosts|
        invariant 0 <= i <= |hosts|
        invariant log == old(log) + AgentPass(hosts[..i], master, accept)
      {
        ghost var before := log;
        if hosts[i] != master {
          log := log + [Run(hosts[i], AgentTestCommand(master), accept)];
        }
        Extend(old(log), AgentPass(hosts[..i], master, accept),
          if hosts[i] == master then [] else [Run(hosts[i], AgentTestCommand(master), accept)], before, log);
        AgentPassSnoc(hosts, master, accept, i);
        i := i + 1;
      }
      assert hosts[..i] == hosts;
    }

    /** The ssldir of every host looked up and emptied. */
    method ClearSslOn(hosts: seq<Host>)
      modifies this
      ensures log == old(log) + WipeCalls(hosts, respond)
    {
      var i := 0;
      while i < |hosts|
        invariant 0 <= i <= |hosts|
        invariant log == old(log) + WipeCalls(hosts[..i], respond)
      {
        var h := hosts[i];
        ghost var before := log;
        log := log + [Run(h, SsldirCommand, Zero)];
        var ssldir := Strip(respond(h, SsldirCommand).stdout);
        log := log + [Run(h, WipeCommand(ssldir), Zero)];
        Extend(old(log), WipeCalls(hosts[..i], respond), [Run(h, SsldirCommand, Zero), Run(h, WipeCommand(ssldir), Zero)], before, log);
        WipeCallsSnoc(hosts, respond, i);
        i := i + 1;
      }
      assert hosts[..i] == hosts;
    }

    /** The master's fqdn and hostname, as `facter fqdn` and `hostname`
        report them. */
    method ReadNamesOn(master: Host) returns (fqdn: string, hostname: string)
      modifies this
      ensures log == old(log) + [Run(master, FqdnCommand, Zero), Run(master, HostnameCommand, Zero)]
      ensures StartOn(master, respond) == StartPuppet(master, DnsAltNames(hostname, fqdn), fqdn)
    {
      log := log + [Run(master, FqdnCommand, Zero)];
      fqdn := Strip(respond(master, FqdnCommand).stdout);
      log := log + [Run(master, HostnameCommand, Zero)];
      hostname := Strip(respond(master, HostnameCommand).stdout);
    }

    /** Stopping puppetserver, clearing every host's SSL, reading the
        master's names and setting up the intermediate CA if needed. */
    method PrepareOn(hosts: seq<Host>, master: Host, ica: bool) returns (fqdn: string, hostname: string)
      modifies this
      ensures log == old(log) + Prepare(hosts, master, respond, ica)
      ensures StartOn(master, respond) == StartPuppet(master, DnsAltNames(hostname, fqdn), fqdn)
    {
      ghost var stop := if master.useServiceScripts then [Run(master, StopServerCommand, Zero)] else [];
      ghost var ids := [Run(master, FqdnCommand, Zero), Run(master, HostnameCommand, Zero)];
      ghost var setup := if ica then [Run(master, CaSetupCommand, Zero)] else [];
      if master.useServiceScripts {
        log := log + [Run(master, StopServerCommand, Zero)];
      }
      ghost var stopped := log;
      ClearSslOn(hosts);
      Extend(old(log), stop, WipeCalls(hosts, respond), stopped, log);
      ghost var cleared := log;
      fqdn, hostname := ReadNamesOn(master);
      Extend(old(log), stop + WipeCalls(hosts, respond), ids, cleared, log);
      ghost var named := log;
      if ica {
        log := log + [Run(master, CaSetupCommand, Zero)];
      }
      Extend(old(log), stop + WipeCalls(hosts, respond) + ids, setup, named, log);
    }

    /** The block given to with_puppet_running_on, and leaving it. */
    method WhileRunningOn(hosts: seq<Host>, master: Host, ica: bool)
      modifies this
      ensures log == old(log) + AfterStart(hosts, master, ica)
    {
      AgentPassOn(hosts, master, Codes({1}));
      if ica {
        log := log + [Run(master, CaSignCommand, Codes({0, 24}))];
      } else {
        log := log + [Run(master, CertSignCommand, Codes({0, 24}))];
      }
      AgentPassOn(hosts, master, Codes({0, 2}));
      log := log + [StopPuppet(master)];
    }

    /** Everything after a successful probe: the preparation, the start with
        the master's names, the passes and the signing, and the stop. */
    method SignInModeOn(hosts: seq<Host>, master: Host, ica: bool)
      modifies this
      ensures log == old(log) + (Prepare(hosts, master, respond, ica) + [StartOn(master, respond)] + AfterStart(hosts, master, ica))
    {
      var fqdn, hostname := PrepareOn(hosts, master, ica);
      ghost var prepared := log;
      log := log + [StartPuppet(master, DnsAltNames(hostname, fqdn), fqdn)];
      Extend(old(log), Prepare(hosts, master, respond, ica), [StartOn(master, respond)], prepared, log);
      ghost var started := log;
      WhileRunningOn(hosts, master, ica);
      Extend(old(log), Prepare(hosts, master, respond, ica) + [StartOn(master, respond)], AfterStart(hosts, master, ica), started, log);
    }

    /** sign_agent_cert_for(hosts), `master` being the master host. */
    method SignAgentCertFor(hosts: seq<Host>, master: Host) returns (r: Outcome)
      modifies this
      ensures r == SignAgentCert(hosts, master, respond).outcome
      ensures log == old(log) + SignAgentCert(hosts, master, respond).calls
    {
      var numMasters := MastersAmong(hosts);
      if numMasters != 1 {
        return Fail(MasterCount(numMasters));
      }
      var version := PuppetserverVersionOn(master);
      if version.None? {
        return Fail(PuppetserverMissing(master.name));
      }
      var ica := UsesIntermediateCa(version.value);
      ghost var probed := log;
      SignInModeOn(hosts, master, ica);
      SignWithPass(hosts, master, respond, version);
      Extend(old(log), [Run(master, ServerVersionCommand, AnyCode)],
        Prepare(hosts, master, respond, ica) + [StartOn(master, respond)] + AfterStart(hosts, master, ica), probed, log);
      return Pass;
    }

    // ----------------------------------------------------------------
    // Firewall

    /** The `case` of stop_firewall_with_puppet_on for one host. */
    method StopFirewallOnHost(h: Host)
      modifies this
      ensures log == old(log) + FirewallCalls(h, respond)
    {
      match ChooseFirewall(PlatformOf(h))
      case FlushIptables =>
        log := log + [Run(h, WhichIptablesCommand, AnyCode)];
        var result := respond(h, WhichIptablesCommand);
        if result.exitCode == 0 {
          log := log + [Run(h, FlushCommand, Zero)];
        }
      case StopService(name) =>
        log := log + [Run(h, StopServiceCommand(name), Zero)];
      case NoAction =>
    }

    /** stop_firewall_with_puppet_on(hosts) */
    method StopFirewallWithPuppetOn(hosts: seq<Host>)
      modifies this
      ensures log == old(log) + StopFirewallCalls(hosts, respond)
    {
      var i := 0;
      while i < |hosts|
        invariant 0 <= i <= |hosts|
        invariant log == old(log) + StopFirewallCalls(hosts[..i], respond)
      {
        ghost var before := log;
        StopFirewallOnHost(hosts[i]);
        Extend(old(log), StopFirewallCalls(hosts[..i], respond), FirewallCalls(hosts[i], respond), before, log);
        StopFirewallSnoc(hosts, respond, i);
        i := i + 1;
      }
      assert hosts[..i] == hosts;
    }
  }
}
